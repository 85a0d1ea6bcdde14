/** cache/service.go and cache/cache_entry.go: the entry table of the
    newer revision and the refresher that keeps each entry up to date.

    The goroutines are replaced by explicit calls. The creating Request
    returns the new entry with its gate held; each call of Entry.Step is
    one pass of the refresher loop; Entry.Read is the part of Request that
    runs once the gate can be taken in shared mode. Time is an integer
    count of nanoseconds passed in by the caller. */
module Cache {
  import opened Wrappers
  import opened GoStrings
  import opened GoFmt
  import opened GoTime
  import opened Headers
  import opened Validation
  import RpcRequest

  /** The outcome of one HTTP fetch (Entry.fetch): the body, or an error. */
  datatype FetchResult = Fetched(body: string) | Failed(message: string)

  /** The fields of an entry that the refresher loop reads and writes,
      with the loop's own `first` flag and whether the loop has returned. */
  datatype EntryState = EntryState(
    response: string,
    error: Option<string>,
    lastAccess: int,
    gateHeld: bool,
    first: bool,
    evicted: bool)

  /** The state of an entry when Request publishes it. */
  function Created(now: int): EntryState
  {
    EntryState("", None, now, true, true, false)
  }

  /** The idle test at the top of the loop: a timeout is configured and
      now is after LastAccess + Timeout. */
  predicate TimedOut(lastAccess: int, now: int, timeout: int)
  {
    timeout > 0 && now > lastAccess + timeout
  }

  /** One pass of Entry.task. An idle entry is evicted with nothing else
      changed; otherwise the fetch result is stored under the gate and the
      gate is released. A successful fetch replaces the pair; a failed one
      clears a cached body and records the error, and leaves an entry with
      no body as it was. */
  function Refresh(s: EntryState, now: int, timeout: int, fetch: FetchResult): (t: EntryState)
    requires !s.evicted
    ensures t.evicted <==> TimedOut(s.lastAccess, now, timeout)
    ensures t.evicted ==> t == s.(evicted := true)
    ensures !t.evicted ==> !t.gateHeld && !t.first && t.lastAccess == s.lastAccess
    ensures !t.evicted && fetch.Fetched? ==> t.response == fetch.body && t.error == None
    ensures !t.evicted && fetch.Failed? && s.response == "" ==>
      t.response == s.response && t.error == s.error
    ensures !t.evicted && fetch.Failed? && s.response != "" ==>
      t.response == "" && t.error == Some(fetch.message)
    ensures (s.gateHeld <==> s.first) ==> (t.gateHeld <==> t.first)
  {
    if TimedOut(s.lastAccess, now, timeout) then s.(evicted := true)
    else
      var (response, error) :=
        match fetch
        case Fetched(body) => (body, None)
        case Failed(message) =>
          if s.response != "" then ("", Some(message)) else (s.response, s.error);
      s.(response := response, error := error, gateHeld := false, first := false)
  }

  /** The stale-on-failure policy the code's comment describes: a failure
      keeps a cached body and hides the error, and is reported only when
      there is no body to fall back on. */
  function StaleOnFailure(s: EntryState, fetch: FetchResult): (pair: (string, Option<string>))
    ensures fetch.Failed? ==> pair.0 == s.response
    ensures pair.1.Some? <==> fetch.Failed? && s.response == ""
  {
    match fetch
    case Fetched(body) => (body, None)
    case Failed(message) => if s.response != "" then (s.response, None) else ("", Some(message))
  }

  /** The refresher as written agrees with stale-on-failure on every
      success, and on a failure only when the body is already empty and
      the same error is already stored. */
  lemma PolicyAsWrittenVsStaleOnFailure(s: EntryState, now: int, timeout: int, fetch: FetchResult)
    requires !s.evicted && !TimedOut(s.lastAccess, now, timeout)
    ensures var t := Refresh(s, now, timeout, fetch);
            (t.response, t.error) == StaleOnFailure(s, fetch) <==>
            fetch.Fetched? || (s.response == "" && s.error == Some(fetch.message))
  {
  }

  /** The entry after the refresher has stored each fetch result in turn,
      none of them evicting (the timeout is 0, i.e. switched off). */
  function Run(s: EntryState, fetches: seq<FetchResult>): (t: EntryState)
    requires !s.evicted
    ensures !t.evicted && t.lastAccess == s.lastAccess
  {
    if |fetches| == 0 then s
    else Refresh(Run(s, fetches[..|fetches| - 1]), 0, 0, fetches[|fetches| - 1])
  }

  /** Index of the last successful fetch, if any. */
  function LastSuccess(fetches: seq<FetchResult>): (j: Option<nat>)
    ensures j.Some? ==> j.value < |fetches| && fetches[j.value].Fetched?
    ensures j.Some? ==> forall i :: j.value < i < |fetches| ==> fetches[i].Failed?
    ensures j.None? ==> forall i :: 0 <= i < |fetches| ==> fetches[i].Failed?
  {
    if |fetches| == 0 then None
    else if fetches[|fetches| - 1].Fetched? then Some(|fetches| - 1)
    else LastSuccess(fetches[..|fetches| - 1])
  }

  /** What a reader is served after a series of fetches, stated from the
      series alone: ("", nil) while nothing has succeeded; the last
      successful body while nothing has failed since; and once a failure
      follows a non-empty body, no body and the FIRST error after it. */
  function Observed(fetches: seq<FetchResult>): (string, Option<string>)
  {
    match LastSuccess(fetches)
    case None => ("", None)
    case Some(j) =>
      if j + 1 < |fetches| && fetches[j].body != "" then ("", Some(fetches[j + 1].message))
      else (fetches[j].body, None)
  }

  /** The refresher serves exactly Observed: the pair a new entry holds
      after any series of non-evicting fetches. */
  lemma {:induction false} RunObserved(now: int, fetches: seq<FetchResult>)
    ensures var t := Run(Created(now), fetches);
            (t.response, t.error) == Observed(fetches)
  {
    if |fetches| > 0 {
      var pre, last := fetches[..|fetches| - 1], fetches[|fetches| - 1];
      RunObserved(now, pre);
      if last.Failed? {
        assert LastSuccess(fetches) == LastSuccess(pre);
        match LastSuccess(pre)
        case None =>
        case Some(j) =>
          assert pre[j] == fetches[j];
          if j + 1 < |pre| {
            assert pre[j + 1] == fetches[j + 1];
          }
      }
    }
  }

  /** A first fetch that fails is served as ("", nil): its error is never
      seen by the readers that waited for it. */
  lemma FirstFailureServedAsEmpty(now: int, message: string)
    ensures var t := Run(Created(now), [Failed(message)]);
            t.response == "" && t.error == None
  {
    RunObserved(now, [Failed(message)]);
  }

  /** After a non-empty body, a failure and any further failures leave
      no body and the first of those errors, until the next success. */
  lemma FailureErasesBody(now: int, body: string, message: string, more: seq<FetchResult>)
    requires body != ""
    requires forall i :: 0 <= i < |more| ==> more[i].Failed?
    ensures var t := Run(Created(now), [Fetched(body), Failed(message)] + more);
            t.response == "" && t.error == Some(message)
  {
    var fetches := [Fetched(body), Failed(message)] + more;
    RunObserved(now, fetches);
    assert LastSuccess(fetches) == Some(0) by {
      LastSuccessAfter(fetches, 0);
    }
  }

  /** The last success is at j when it is a success followed by failures. */
  lemma {:induction false} LastSuccessAfter(fetches: seq<FetchResult>, j: nat)
    requires j < |fetches| && fetches[j].Fetched?
    requires forall i :: j < i < |fetches| ==> fetches[i].Failed?
    ensures LastSuccess(fetches) == Some(j)
  {
    if j < |fetches| - 1 {
      var pre := fetches[..|fetches| - 1];
      LastSuccessAfter(pre, j);
    }
  }

  /** One cache entry (Entry). The request parameters never change; the
      pair (response, error) is written only by Step while the gate is
      held. */
  class Entry {
    const httpMethod: string
    const url: string
    const body: string
    const headers: Header
    const ttl: Int64
    const id: UInt64

    var lastAccess: int
    var response: string
    var error: Option<string>
    /** The exclusive hold of the Fetching RWMutex. */
    var gateHeld: bool
    /** The refresher's `first` flag. */
    var first: bool
    /** The refresher has returned after removing the entry. */
    var evicted: bool

    /** The entry as Request builds it, with Fetching already locked. */
    constructor (httpMethod: string, url: string, body: string, headers: Header, ttl: Int64, id: UInt64, now: int)
      ensures this.httpMethod == httpMethod && this.url == url && this.body == body
      ensures this.headers == headers && this.ttl == ttl && this.id == id
      ensures State() == Created(now)
    {
      this.httpMethod := httpMethod;
      this.url := url;
      this.body := body;
      this.headers := headers;
      this.ttl := ttl;
      this.id := id;
      lastAccess := now;
      response := "";
      error := None;
      gateHeld := true;
      first := true;
      evicted := false;
    }

    function State(): EntryState
      reads this
    {
      EntryState(response, error, lastAccess, gateHeld, first, evicted)
    }

    /** The gate is held exactly while the first pass has not completed. */
    predicate Valid()
      reads this
    {
      gateHeld == first
    }

    /** Entry.String: the id in lower-case hexadecimal without leading
        zeros; it reads back as the id. */
    function String(): (s: string)
      ensures HexValue(s) == id
      ensures forall i :: 0 <= i < |s| ==> s[i] in Digits
      ensures |s| >= 1 && (s[0] == '0' ==> s == "0")
      ensures s == "0" <==> id == 0
    {
      HexRoundTrip(id);
      HexCanonical(id);
      Hex(id)
    }

    /** One pass of the `for` loop of Entry.task. */
    method Step(service: Service, now: int, fetch: FetchResult)
      requires service.Valid() && Valid() && !evicted
      requires id in service.cache && service.cache[id] == this
      modifies this, service
      ensures State() == Refresh(old(State()), now, old(service.timeout), fetch)
      ensures service.cache == if evicted then old(service.cache) - {id} else old(service.cache)
      ensures service.size == if evicted then old(service.size) - 1 else old(service.size)
      ensures service.hits == old(service.hits) && service.misses == old(service.misses)
      ensures service.timeout == old(service.timeout)
      ensures service.Valid() && Valid()
    {
      if service.timeout > 0 && now > lastAccess + service.timeout {
        Evict(service);
        return;
      }
      // on the first pass the creator's hold is still in place
      if !first {
        gateHeld := true;
      }
      match fetch {
        case Fetched(b) =>
          error := None;
          response := b;
        case Failed(message) =>
          if response != "" {
            error := Some(message);
            response := "";
          }
      }
      gateHeld := false;
      first := false;
    }

    /** The idle branch: remove the entry from the table and return. */
    method Evict(service: Service)
      requires service.Valid() && id in service.cache && service.cache[id] == this
      modifies this`evicted, service
      ensures evicted
      ensures service.cache == old(service.cache) - {id} && service.size == old(service.size) - 1
      ensures service.hits == old(service.hits) && service.misses == old(service.misses)
      ensures service.timeout == old(service.timeout)
      ensures service.Valid()
    {
      service.Remove(id);
      assert forall k :: k in service.cache ==> service.cache[k] != this;
      evicted := true;
    }

    /** The shared-mode part of Request: runs once the gate is free, marks
        the access and returns the pair. */
    method Read(now: int) returns (response: string, error: Option<string>)
      requires !gateHeld
      modifies this`lastAccess
      ensures lastAccess == now
      ensures response == this.response && error == this.error
    {
      lastAccess := now;
      response := this.response;
      error := this.error;
    }
  }

  /** The entry table of Service, with the three metrics as counters. */
  class Service {
    var cache: map<UInt64, Entry>
    var timeout: int
    var hits: nat
    var misses: nat
    /** The size gauge; Remove decrements it unconditionally. */
    var size: int
    /** xxhash.Sum64String. */
    const hash: string -> UInt64

    /** Every entry sits under its own id, is live and keeps its gate
        discipline, and the size gauge counts the table. */
    ghost predicate Valid()
      reads this, cache.Values
    {
      && (forall k :: k in cache ==> cache[k].id == k && !cache[k].evicted && cache[k].Valid())
      && size == |cache|
    }

    /** NewService: an empty table; Timeout is set afterwards by the
        caller, 0 meaning never evict. */
    constructor (hash: string -> UInt64)
      ensures Valid() && this.hash == hash
      ensures cache == map[] && timeout == 0 && hits == 0 && misses == 0 && size == 0
    {
      this.hash := hash;
      cache := map[];
      timeout := 0;
      hits, misses, size := 0, 0, 0;
    }

    /** The id of a request. */
    function Key(request: RpcRequest.CmdRequest): UInt64
    {
      hash(RpcRequest.PreImage(request))
    }

    /** The table phase of Service.Request. A known id is a hit. An unknown
        one is validated, headers first and TTL second; an invalid request
        changes nothing, a valid one inserts exactly one new entry under
        its id with the gate held. */
    method Request(request: RpcRequest.CmdRequest, now: int) returns (res: Result<Entry, Error>)
      requires Valid()
      modifies this
      ensures Valid()
      ensures timeout == old(timeout)
      ensures Key(request) in old(cache) ==>
        && res == Success(old(cache)[Key(request)])
        && cache == old(cache) && size == old(size)
        && hits == old(hits) + 1 && misses == old(misses)
      ensures Key(request) !in old(cache) && Admit(request).Failure? ==>
        && res == Failure(Admit(request).error)
        && cache == old(cache) && size == old(size)
        && hits == old(hits) && misses == old(misses)
      ensures Key(request) !in old(cache) && Admit(request).Success? ==>
        && res.Success? && fresh(res.value)
        && cache == old(cache)[Key(request) := res.value]
        && size == old(size) + 1 && misses == old(misses) + 1 && hits == old(hits)
        && res.value.httpMethod == ToUpper(request.httpMethod)
        && res.value.url == request.url && res.value.body == request.body
        && res.value.headers == Admit(request).value
        && res.value.ttl == Seconds(request.ttl)
        && res.value.id == Key(request)
        && res.value.State() == Created(now)
    {
      var id := RpcRequest.Hash(request, hash);
      if id in cache {
        hits := hits + 1;
        return Success(cache[id]);
      }
      var headers := RpcRequest.GetHeaders(request);
      if headers.Failure? {
        return Failure(headers.error);
      }
      var ttl := Seconds(request.ttl);
      if ttl < Second {
        return Failure(InvalidTtl);
      }
      var entry := new Entry(ToUpper(request.httpMethod), request.url, request.body,
                             headers.value, ttl, id, now);
      Insert(entry);
      return Success(entry);
    }

    /** The miss branch's table update: store the new entry under its id
        and count the miss and the new size. */
    method Insert(entry: Entry)
      requires Valid() && entry.id !in cache && entry.Valid() && !entry.evicted
      modifies this
      ensures Valid()
      ensures cache == old(cache)[entry.id := entry]
      ensures size == old(size) + 1 && misses == old(misses) + 1
      ensures hits == old(hits) && timeout == old(timeout)
    {
      cache := cache[entry.id := entry];
      size := size + 1;
      misses := misses + 1;
    }

    /** Service.remove: deletes id (nothing if absent) and decrements the
        size gauge in either case. */
    method Remove(id: UInt64)
      modifies this
      ensures old(Valid()) && id in old(cache) ==> Valid()
      ensures cache == old(cache) - {id}
      ensures size == old(size) - 1
      ensures hits == old(hits) && misses == old(misses) && timeout == old(timeout)
    {
      cache := cache - {id};
      size := size - 1;
    }
  }

  /** The validation a miss applies: the header list first, then the TTL.
      Success carries the parsed headers. */
  function Admit(request: RpcRequest.CmdRequest): Result<Header, Error>
  {
    match RpcRequest.ParseHeaders(request.headers)
    case Failure(e) => Failure(e)
    case Success(h) => if TtlTooLow(request.ttl) then Failure(InvalidTtl) else Success(h)
  }

  /** A malformed header is reported before the TTL is looked at: the
      error names the first malformed header string whatever the TTL. */
  lemma AdmitHeadersFirst(request: RpcRequest.CmdRequest, j: nat)
    requires j < |request.headers| && !WellFormed(request.headers[j])
    requires forall i :: 0 <= i < j ==> WellFormed(request.headers[i])
    ensures Admit(request) == Failure(BadHeader(request.headers[j]))
  {
    RpcRequest.ParseHeadersFirstError(request.headers, j);
  }

  /** With well-formed headers and a TTL that does not overflow, a miss is
      rejected exactly when the TTL is not positive, and then with
      ErrInvalidTtl. */
  lemma AdmitTtl(request: RpcRequest.CmdRequest)
    requires forall i :: 0 <= i < |request.headers| ==> WellFormed(request.headers[i])
    requires -9_223_372_036 <= request.ttl <= 9_223_372_036
    ensures Admit(request).Failure? <==> request.ttl <= 0
    ensures Admit(request).Failure? ==> Admit(request).error == InvalidTtl
    ensures Admit(request).Success? ==> Admit(request) == RpcRequest.ParseHeaders(request.headers)
  {
    RpcRequest.ParseHeadersSucceedsIff(request.headers);
    TtlFloor(request.ttl);
  }
}
