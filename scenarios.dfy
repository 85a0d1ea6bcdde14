/** Concrete runs of both tables: a client drives Request, the refresher
    steps and the reads in the order the goroutines would interleave, and
    the contracts state what the client observes. */
module Scenarios {
  import opened Wrappers
  import opened GoTime
  import GoStrings
  import Headers
  import opened Validation
  import RpcRequest
  import LegacyRequest
  import Cache
  import LegacyCache

  function Get(url: string, headers: seq<string>, ttl: Int64): RpcRequest.CmdRequest
  {
    RpcRequest.CmdRequest("GET", url, "", headers, ttl)
  }

  /** A miss creates the entry, the first fetch fills it, and both the
      waiting caller and a later caller with the same request see the
      body; the table holds one entry and counts one miss and one hit. */
  method FirstRequestThenHit(hash: string -> UInt64)
    returns (r1: string, e1: Option<string>, r2: string, e2: Option<string>, hits: nat, misses: nat, size: int)
    ensures r1 == "OK" && e1 == None && r2 == "OK" && e2 == None
    ensures hits == 1 && misses == 1 && size == 1
  {
    var service := new Cache.Service(hash);
    var request := Get("http://x/", [], 5);
    assert RpcRequest.ParseHeaders([]) == Success(map[]);
    var res := service.Request(request, 0);
    var entry := res.value;
    entry.Step(service, 1, Cache.Fetched("OK"));
    r1, e1 := entry.Read(2);
    assert service.Valid();
    var again := service.Request(request, 3);
    assert again.value == entry;
    r2, e2 := again.value.Read(4);
    hits, misses, size := service.hits, service.misses, service.size;
  }

  /** Headers are hashed by plain concatenation: a request whose header
      list is ["a", ":b"] is served from the entry made for ["a:b"],
      although on its own it would be rejected as malformed. */
  method MalformedHeaderServedFromCache(hash: string -> UInt64)
    returns (alone: Result<Cache.Entry, Error>, hit: bool)
    ensures alone.Failure? && alone.error == BadHeader("a")
    ensures hit
  {
    var good := Get("http://x/", ["a:b"], 5);
    var bad := Get("http://x/", ["a", ":b"], 5);
    SplitHeaderFacts(good, bad);
    var other := new Cache.Service(hash);
    alone := other.Request(bad, 0);

    var service := new Cache.Service(hash);
    var first := service.Request(good, 0);
    var second := service.Request(bad, 1);
    hit := second.Success? && second.value == first.value;
  }

  /** The two requests of MalformedHeaderServedFromCache share a
      pre-image; only the first one is admitted. */
  lemma SplitHeaderFacts(good: RpcRequest.CmdRequest, bad: RpcRequest.CmdRequest)
    requires good == Get("http://x/", ["a:b"], 5) && bad == Get("http://x/", ["a", ":b"], 5)
    ensures RpcRequest.PreImage(good) == RpcRequest.PreImage(bad)
    ensures Cache.Admit(good).Success? && Cache.Admit(bad) == Failure(BadHeader("a"))
  {
    assert RpcRequest.Concat(["a", ":b"]) == "a:b" == RpcRequest.Concat(["a:b"]) by {
      assert ["a", ":b"][..1] == ["a"] && ["a:b"][..0] == [];
    }
    assert Headers.WellFormed("a:b") && !Headers.WellFormed("a") by {
      assert GoStrings.Count("a:b", ':') == 1;
    }
    Cache.AdmitHeadersFirst(bad, 0);
    Cache.AdmitTtl(good);
  }

  /** An invalid TTL is refused with ErrInvalidTtl and leaves the table
      empty; so is a TTL whose nanosecond count overflows int64. */
  method InvalidTtlRejected(hash: string -> UInt64)
    returns (zero: Result<Cache.Entry, Error>, huge: Result<Cache.Entry, Error>, size: int)
    ensures zero == Failure(InvalidTtl) && huge == Failure(InvalidTtl) && size == 0
  {
    var service := new Cache.Service(hash);
    assert RpcRequest.ParseHeaders([]) == Success(map[]);
    TtlFloor(0);
    TtlOverflowRejected();
    zero := service.Request(Get("http://x/", [], 0), 0);
    huge := service.Request(Get("http://x/", [], 9_223_372_037), 0);
    size := service.size;
  }

  /** With a timeout set, an entry not read for longer than the timeout
      is removed by its refresher, and the next identical request is a
      miss that builds a new entry. The creator's own read, once the first
      pass releases the gate, is the last access. */
  method IdleEntryEvicted(hash: string -> UInt64)
    returns (seen: string, kept: bool, evicted: bool, sizeAfter: int, missesAfter: nat, renewed: bool)
    ensures seen == "OK" && kept
    ensures evicted && sizeAfter == 1 && missesAfter == 2 && renewed
  {
    var service := new Cache.Service(hash);
    service.timeout := 10;
    var request := Get("http://x/", [], 5);
    assert RpcRequest.ParseHeaders([]) == Success(map[]);
    var res := service.Request(request, 0);
    var entry := res.value;
    entry.Step(service, 5, Cache.Fetched("OK"));
    var error;
    seen, error := entry.Read(5);
    assert service.Valid();
    entry.Step(service, 15, Cache.Fetched("OK"));
    kept := !entry.evicted;
    entry.Step(service, 16, Cache.Fetched("OK"));
    evicted := entry.evicted;
    var again := service.Request(request, 12);
    renewed := again.Success? && again.value != entry && again.value.State() == Cache.Created(12);
    sizeAfter, missesAfter := service.size, service.misses;
  }

  /** An entry that times out before its first pass leaves the table
      with the creator's hold on its gate never released: a caller still
      holding it would wait for ever. */
  method EvictedBeforeFirstFetch(hash: string -> UInt64) returns (evicted: bool, gateHeld: bool, size: int)
    ensures evicted && gateHeld && size == 0
  {
    var service := new Cache.Service(hash);
    service.timeout := 10;
    assert RpcRequest.ParseHeaders([]) == Success(map[]);
    var res := service.Request(Get("http://x/", [], 5), 0);
    res.value.Step(service, 11, Cache.Fetched("OK"));
    evicted, gateHeld, size := res.value.evicted, res.value.gateHeld, service.size;
  }

  /** Removing an id that is not in the table still lowers the size
      gauge, so it no longer counts the table. */
  method RemoveAbsentId(hash: string -> UInt64) returns (size: int, entries: nat)
    ensures size == -1 && entries == 0
  {
    var service := new Cache.Service(hash);
    service.Remove(7);
    size, entries := service.size, |service.cache|;
  }

  /** A failed refresh erases a cached body and serves the error. */
  method FailureAfterSuccess(hash: string -> UInt64)
    returns (r1: string, e1: Option<string>)
    ensures r1 == "" && e1 == Some("down")
  {
    var service := new Cache.Service(hash);
    assert RpcRequest.ParseHeaders([]) == Success(map[]);
    var res := service.Request(Get("http://x/", [], 5), 0);
    var entry := res.value;
    entry.Step(service, 1, Cache.Fetched("OK"));
    var created, createdError := entry.Read(1);
    assert service.Valid();
    entry.Step(service, 2, Cache.Failed("down"));
    r1, e1 := entry.Read(3);
  }

  /** Once the body is gone, a further failure keeps the first error. */
  method ErrorPersists(hash: string -> UInt64) returns (response: string, error: Option<string>)
    ensures response == "" && error == Some("down")
  {
    var service := new Cache.Service(hash);
    assert RpcRequest.ParseHeaders([]) == Success(map[]);
    var res := service.Request(Get("http://x/", [], 5), 0);
    var entry := res.value;
    entry.Step(service, 1, Cache.Fetched("OK"));
    var created, createdError := entry.Read(1);
    assert service.Valid();
    entry.Step(service, 2, Cache.Failed("down"));
    entry.Step(service, 3, Cache.Failed("again"));
    response, error := entry.Read(4);
  }

  /** The next success restores a body and clears the error. */
  method SuccessRestores(hash: string -> UInt64) returns (response: string, error: Option<string>)
    ensures response == "NEW" && error == None
  {
    var service := new Cache.Service(hash);
    assert RpcRequest.ParseHeaders([]) == Success(map[]);
    var res := service.Request(Get("http://x/", [], 5), 0);
    var entry := res.value;
    entry.Step(service, 1, Cache.Fetched("OK"));
    var created, createdError := entry.Read(1);
    assert service.Valid();
    entry.Step(service, 2, Cache.Failed("down"));
    entry.Step(service, 3, Cache.Fetched("NEW"));
    response, error := entry.Read(4);
  }

  /** When the very first fetch fails, the newer table serves ("", nil)... */
  method FirstFailureNewer(hash: string -> UInt64) returns (response: string, error: Option<string>)
    ensures response == "" && error == None
  {
    var service := new Cache.Service(hash);
    assert RpcRequest.ParseHeaders([]) == Success(map[]);
    var res := service.Request(Get("http://x/", [], 5), 0);
    res.value.Step(service, 1, Cache.Failed("down"));
    response, error := res.value.Read(2);
  }

  /** ... while the older one serves the error. */
  method FirstFailureOlder(hash: string -> UInt64) returns (response: string, error: Option<string>)
    ensures response == "" && error == Some("down")
  {
    var legacy := new LegacyCache.CacheService(hash);
    var request := LegacyRequest.CmdRequest("GET", "http://x/", "", map[], 5);
    assert LegacyRequest.IsKeyOrder([], map[]);
    assert LegacyCache.ParseMapHeaders(map[], []) == Success(map[]);
    var res := legacy.Request(request, [], []);
    res.value.Step(LegacyCache.Failed("down"));
    response, error := res.value.Read();
  }
}
