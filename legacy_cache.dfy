/** cache.go: the entry table of the older revision. Header strings come
    from a name-to-value map visited in an unspecified order (an explicit
    argument here), entries are never evicted, and each refresh overwrites
    the stored pair with whatever the fetch gave. */
module LegacyCache {
  import opened Wrappers
  import opened GoStrings
  import opened GoFmt
  import opened GoTime
  import opened Headers
  import opened Validation
  import opened LegacyRequest
  import RpcRequest

  /** The values of m in the order the header loop visits their keys. */
  function Values(m: map<string, string>, order: seq<string>): (vs: seq<string>)
    requires forall i :: 0 <= i < |order| ==> order[i] in m
    ensures |vs| == |order| && forall i :: 0 <= i < |order| ==> vs[i] == m[order[i]]
  {
    if |order| == 0 then []
    else Values(m, order[..|order| - 1]) + [m[order[|order| - 1]]]
  }

  /** What the header loop of CacheService.Request computes when range
      visits the keys in order: the key of the first value without
      exactly one ':' is the error, and otherwise each value adds its
      trimmed halves. The key itself is not parsed. */
  function ParseMapHeaders(m: map<string, string>, order: seq<string>): Result<Header, Error>
    requires forall i :: 0 <= i < |order| ==> order[i] in m
  {
    if |order| == 0 then Success(map[])
    else
      var key := order[|order| - 1];
      match ParseMapHeaders(m, order[..|order| - 1])
      case Failure(e) => Failure(e)
      case Success(h) =>
        match ParseField(m[key])
        case None => Failure(BadHeaderAt(key))
        case Some(field) => Success(Add(h, field.0, field.1))
  }

  /** The map loop fails exactly when the list parser of the newer
      revision fails on the values in the same order... */
  lemma {:induction false} ParseMapHeadersAsListSuccess(m: map<string, string>, order: seq<string>)
    requires forall i :: 0 <= i < |order| ==> order[i] in m
    ensures ParseMapHeaders(m, order).Success? <==> RpcRequest.ParseHeaders(Values(m, order)).Success?
  {
    if |order| > 0 {
      var pre := order[..|order| - 1];
      ParseMapHeadersAsListSuccess(m, pre);
      assert Values(m, order)[..|order| - 1] == Values(m, pre);
    }
  }

  /** ... and otherwise builds the same header map. */
  lemma {:induction false} ParseMapHeadersAsList(m: map<string, string>, order: seq<string>)
    requires forall i :: 0 <= i < |order| ==> order[i] in m
    ensures ParseMapHeaders(m, order).Success? <==> RpcRequest.ParseHeaders(Values(m, order)).Success?
    ensures ParseMapHeaders(m, order).Success? ==>
      ParseMapHeaders(m, order).value == RpcRequest.ParseHeaders(Values(m, order)).value
  {
    ParseMapHeadersAsListSuccess(m, order);
    if |order| > 0 && ParseMapHeaders(m, order).Success? {
      var pre := order[..|order| - 1];
      ParseMapHeadersAsList(m, pre);
      assert Values(m, order)[..|order| - 1] == Values(m, pre);
    }
  }

  /** Whether the headers are accepted does not depend on the visiting
      order: exactly when every value has one ':'. */
  lemma ParseMapHeadersSucceedsIff(m: map<string, string>, order: seq<string>)
    requires IsKeyOrder(order, m)
    ensures ParseMapHeaders(m, order).Success? <==> forall k :: k in m ==> WellFormed(m[k])
  {
    ParseMapHeadersAsList(m, order);
    RpcRequest.ParseHeadersSucceedsIff(Values(m, order));
    forall k | k in m && !WellFormed(m[k])
      ensures exists i :: 0 <= i < |order| && !WellFormed(Values(m, order)[i])
    {
      var i :| 0 <= i < |order| && order[i] == k;
      assert Values(m, order)[i] == m[k];
    }
  }

  /** The reported key is the first one in visiting order whose value is
      malformed. */
  lemma {:induction false} ParseMapHeadersFirstError(m: map<string, string>, order: seq<string>, j: nat)
    requires forall i :: 0 <= i < |order| ==> order[i] in m
    requires j < |order| && !WellFormed(m[order[j]])
    requires forall i :: 0 <= i < j ==> WellFormed(m[order[i]])
    ensures ParseMapHeaders(m, order) == Failure(BadHeaderAt(order[j]))
  {
    var pre := order[..|order| - 1];
    if j == |order| - 1 {
      ParseMapHeadersAsList(m, pre);
      RpcRequest.ParseHeadersSucceedsIff(Values(m, pre));
    } else {
      ParseMapHeadersFirstError(m, pre, j);
    }
  }

  /** With two malformed values, which key the error names depends on
      the order range happens to use. */
  lemma ReportedKeyDependsOnOrder()
    ensures var m := map["a" := "x", "b" := "y"];
            && IsKeyOrder(["a", "b"], m) && IsKeyOrder(["b", "a"], m)
            && ParseMapHeaders(m, ["a", "b"]) == Failure(BadHeaderAt("a"))
            && ParseMapHeaders(m, ["b", "a"]) == Failure(BadHeaderAt("b"))
  {
    var m := map["a" := "x", "b" := "y"];
    assert Count("x", ':') == 0 && Count("y", ':') == 0;
    ParseMapHeadersFirstError(m, ["a", "b"], 0);
    ParseMapHeadersFirstError(m, ["b", "a"], 0);
  }

  /** A well-formed value extends a successful parse by its field. */
  lemma ParseMapHeadersExtend(m: map<string, string>, order: seq<string>, i: nat)
    requires forall j :: 0 <= j < |order| ==> order[j] in m
    requires i < |order| && ParseMapHeaders(m, order[..i]).Success? && WellFormed(m[order[i]])
    ensures ParseMapHeaders(m, order[..i + 1]) ==
      Success(Add(ParseMapHeaders(m, order[..i]).value,
                  ParseField(m[order[i]]).value.0, ParseField(m[order[i]]).value.1))
  {
    assert order[..i + 1][..i] == order[..i];
  }

  /** A malformed value after a successful parse is the final error. */
  lemma ParseMapHeadersFailsAt(m: map<string, string>, order: seq<string>, i: nat)
    requires forall j :: 0 <= j < |order| ==> order[j] in m
    requires i < |order| && ParseMapHeaders(m, order[..i]).Success? && !WellFormed(m[order[i]])
    ensures ParseMapHeaders(m, order) == Failure(BadHeaderAt(order[i]))
  {
    var pre := order[..i];
    ParseMapHeadersAsList(m, pre);
    RpcRequest.ParseHeadersSucceedsIff(Values(m, pre));
    assert forall j :: 0 <= j < i ==> Values(m, pre)[j] == m[order[j]];
    ParseMapHeadersFirstError(m, order, i);
  }

  /** The validation a miss applies: headers first, then the TTL. */
  function Admit(request: CmdRequest, order: seq<string>): Result<Header, Error>
    requires IsKeyOrder(order, request.headers)
  {
    match ParseMapHeaders(request.headers, order)
    case Failure(e) => Failure(e)
    case Success(h) => if TtlTooLow(request.ttl) then Failure(InvalidTtl) else Success(h)
  }

  /** Whether a miss is admitted does not depend on the header order. */
  lemma AdmitOrderIndependent(request: CmdRequest, o1: seq<string>, o2: seq<string>)
    requires IsKeyOrder(o1, request.headers) && IsKeyOrder(o2, request.headers)
    ensures Admit(request, o1).Success? <==> Admit(request, o2).Success?
    ensures Admit(request, o1).Success? <==>
      (forall k :: k in request.headers ==> WellFormed(request.headers[k])) && !TtlTooLow(request.ttl)
  {
    ParseMapHeadersSucceedsIff(request.headers, o1);
    ParseMapHeadersSucceedsIff(request.headers, o2);
  }

  /** The header loop of CacheService.Request (lines 105-114). */
  method BuildHeaders(request: CmdRequest, order: seq<string>) returns (res: Result<Header, Error>)
    requires IsKeyOrder(order, request.headers)
    ensures res == ParseMapHeaders(request.headers, order)
  {
    var headers: Header := map[];
    var i := 0;
    while i < |order|
      invariant 0 <= i <= |order|
      invariant ParseMapHeaders(request.headers, order[..i]) == Success(headers)
    {
      assert order[..i + 1][..i] == order[..i];
      var key := order[i];
      var h := Split(request.headers[key], ':');
      SplitCount(request.headers[key], ':');
      if |h| != 2 {
        ParseMapHeadersFailsAt(request.headers, order, i);
        return Failure(BadHeaderAt(key));
      }
      ParseMapHeadersExtend(request.headers, order, i);
      headers := Add(headers, TrimSpace(h[0]), TrimSpace(h[1]));
      i := i + 1;
    }
    assert order[..i] == order;
    return Success(headers);
  }

  /** The outcome of CacheEntry.update: the body, or an error (update
      returns "" with it). */
  datatype FetchResult = Fetched(body: string) | Failed(message: string)

  /** The fields of an entry the refresher writes, and its `first` flag. */
  datatype EntryState = EntryState(response: string, error: Option<string>, gateHeld: bool, first: bool)

  function Created(): EntryState
  {
    EntryState("", None, true, true)
  }

  /** One pass of CacheEntry.task: the pair becomes exactly what update
      returned, and the gate is released. */
  function Refresh(s: EntryState, fetch: FetchResult): (t: EntryState)
    ensures fetch.Fetched? ==> t.response == fetch.body && t.error == None
    ensures fetch.Failed? ==> t.response == "" && t.error == Some(fetch.message)
    ensures !t.gateHeld && !t.first
  {
    match fetch
    case Fetched(body) => EntryState(body, None, false, false)
    case Failed(message) => EntryState("", Some(message), false, false)
  }

  function Run(s: EntryState, fetches: seq<FetchResult>): EntryState
  {
    if |fetches| == 0 then s
    else Refresh(Run(s, fetches[..|fetches| - 1]), fetches[|fetches| - 1])
  }

  /** Only the latest fetch is ever served: nothing of an earlier body or
      error survives a later pass. */
  lemma RunServesLast(s: EntryState, fetches: seq<FetchResult>)
    requires |fetches| > 0
    ensures Run(s, fetches) == Refresh(Created(), fetches[|fetches| - 1])
  {
  }

  /** One cache entry (CacheEntry). */
  class CacheEntry {
    const httpMethod: string
    const url: string
    const body: string
    const headers: Header
    const ttl: Int64
    /** The id in lower-case hexadecimal. */
    const hash: string

    var response: string
    var error: Option<string>
    /** The exclusive hold of the Fetching RWMutex. */
    var gateHeld: bool
    /** The refresher's `first` flag. */
    var first: bool

    constructor (httpMethod: string, url: string, body: string, headers: Header, ttl: Int64, hash: string)
      ensures this.httpMethod == httpMethod && this.url == url && this.body == body
      ensures this.headers == headers && this.ttl == ttl && this.hash == hash
      ensures State() == Created()
    {
      this.httpMethod := httpMethod;
      this.url := url;
      this.body := body;
      this.headers := headers;
      this.ttl := ttl;
      this.hash := hash;
      response := "";
      error := None;
      gateHeld := true;
      first := true;
    }

    function State(): EntryState
      reads this
    {
      EntryState(response, error, gateHeld, first)
    }

    predicate Valid()
      reads this
    {
      gateHeld == first
    }

    /** One pass of the `for` loop of CacheEntry.task. */
    method Step(fetch: FetchResult)
      requires Valid()
      modifies this
      ensures State() == Refresh(old(State()), fetch) && Valid()
    {
      if !first {
        gateHeld := true;
      }
      match fetch {
        case Fetched(b) =>
          error := None;
          response := b;
        case Failed(message) =>
          error := Some(message);
          response := "";
      }
      gateHeld := false;
      first := false;
    }

    /** The shared-mode part of Request: once the gate is free, the pair. */
    method Read() returns (response: string, error: Option<string>)
      requires !gateHeld
      ensures response == this.response && error == this.error
    {
      response := this.response;
      error := this.error;
    }
  }

  /** CacheService: the entry table. */
  class CacheService {
    var cache: map<UInt64, CacheEntry>
    /** xxhash.Sum64String. */
    const hash: string -> UInt64

    /** Every entry is labelled with the hex form of its id and keeps its
        gate discipline. */
    ghost predicate Valid()
      reads this, cache.Values
    {
      forall k :: k in cache ==> cache[k].hash == Hex(k) && cache[k].Valid()
    }

    /** NewCacheService. */
    constructor (hash: string -> UInt64)
      ensures Valid() && cache == map[] && this.hash == hash
    {
      this.hash := hash;
      cache := map[];
    }

    /** The table phase of CacheService.Request, with hashOrder the order
        range visits the headers in Hash and headerOrder the one it uses in
        the header loop. A known id is returned as it is; an unknown one is
        validated, and inserted only when valid. */
    method Request(request: CmdRequest, hashOrder: seq<string>, headerOrder: seq<string>)
      returns (res: Result<CacheEntry, Error>)
      requires Valid()
      requires IsKeyOrder(hashOrder, request.headers) && IsKeyOrder(headerOrder, request.headers)
      modifies this
      ensures Valid()
      ensures var id := hash(PreImage(request, hashOrder));
        && (id in old(cache) ==> res == Success(old(cache)[id]) && cache == old(cache))
        && (id !in old(cache) && Admit(request, headerOrder).Failure? ==>
              res == Failure(Admit(request, headerOrder).error) && cache == old(cache))
        && (id !in old(cache) && Admit(request, headerOrder).Success? ==>
              && res.Success? && fresh(res.value)
              && cache == old(cache)[id := res.value]
              && res.value.httpMethod == ToUpper(request.httpMethod)
              && res.value.url == request.url && res.value.body == request.body
              && res.value.headers == Admit(request, headerOrder).value
              && res.value.ttl == Seconds(request.ttl)
              && res.value.hash == Hex(id)
              && res.value.State() == Created())
    {
      var id := LegacyRequest.Hash(request, hashOrder, hash);
      if id in cache {
        return Success(cache[id]);
      }
      var headers := BuildHeaders(request, headerOrder);
      if headers.Failure? {
        return Failure(headers.error);
      }
      var ttl := Seconds(request.ttl);
      if ttl < Second {
        return Failure(InvalidTtl);
      }
      var entry := new CacheEntry(ToUpper(request.httpMethod), request.url, request.body,
                                  headers.value, ttl, Hex(id));
      Insert(id, entry);
      return Success(entry);
    }

    /** `c.cache[id] = entry` in the miss branch. */
    method Insert(id: UInt64, entry: CacheEntry)
      requires Valid() && entry.hash == Hex(id) && entry.Valid()
      modifies this
      ensures Valid() && cache == old(cache)[id := entry]
    {
      cache := cache[id := entry];
    }
  }

  /** Two entries never carry the same label unless they are the same id. */
  lemma LabelsDistinct(service: CacheService, k1: UInt64, k2: UInt64)
    requires service.Valid() && k1 in service.cache && k2 in service.cache && k1 != k2
    ensures service.cache[k1].hash != service.cache[k2].hash
  {
    if service.cache[k1].hash == service.cache[k2].hash {
      HexInjective(k1, k2);
    }
  }
}
