# php-http-cache in Dafny

php-http-cache is a small HTTP response cache that PHP code calls over
RPC. A caller sends a request descriptor (method, URL, body, headers and a
TTL in seconds). The service identifies it by the xxhash of a pre-image
string. It keeps one entry per id in a table. The first caller creates the
entry and every caller waits on the entry's gate until the first fetch has
completed. A background refresher re-fetches the resource every TTL and,
in the newer revision, removes the entry once nobody has read it for
longer than the configured timeout.

The repository holds two revisions, and both are modelled:

- the newer one, split across `rpc/` (request identity and header
  parsing) and `cache/` (the table and the refresher);
- the older one, in `cmd_request.go` and `cache.go`. There the headers
  are a name-to-value map, there are no metrics and no eviction, and a
  refresh overwrites the stored pair unconditionally.

Modules:

| file | module | models |
|---|---|---|
| `wrappers.dfy` | `Wrappers` | `Option` and `Result` |
| `strings.dfy` | `GoStrings` | `strings.Split`, `strings.TrimSpace`, `strings.ToUpper` |
| `fmt.dfy` | `GoFmt` | `fmt.Sprintf("%x", …)` on an unsigned integer |
| `duration.dfy` | `GoTime` | int64/uint64 and `time.Duration(n) * time.Second` with wrap-around |
| `headers.dfy` | `Headers` | `http.Header.Add` and the one-colon header field |
| `validation.dfy` | `Validation` | the errors and the one-second TTL floor |
| `rpc_request.dfy` | `RpcRequest` | `rpc/cmd_request.go` |
| `legacy_request.dfy` | `LegacyRequest` | `cmd_request.go` |
| `cache.dfy` | `Cache` | `cache/service.go`, `cache/cache_entry.go` |
| `legacy_cache.dfy` | `LegacyCache` | `cache.go` |
| `scenarios.dfy` | `Scenarios` | concrete runs of both tables |

How the moving parts become Dafny:

- **The hash.** xxhash is a function value `hash: string -> UInt64` fixed
  when the service is built. It may be any function, so every
  "same id" fact is proved as an equality of pre-images.
- **Concurrency.** The goroutines and locks are replaced by explicit calls.
  - `Service.Request` is the table phase of the Go `Request` (lines 80-127).
    It returns the entry or the validation error.
  - `Entry.Read` is the phase after `RLock` (lines 129-136). It requires
    that the gate is not held exclusively, which is what `RLock` waits for.
  - Each `Entry.Step` is one pass of the refresher loop. The `sync.RWMutex`
    becomes a `gateHeld` flag, with the invariant `gateHeld == first`.
- **Time.** The clock is an integer count of nanoseconds that the caller
  passes in.
- **Map order.** For `cmd_request.go` and `cache.go`, Go's map iteration
  order is an explicit `order` argument that visits every key exactly once
  (`IsKeyOrder`). The hash loop and the header loop each get their own
  order, because Go may visit a map differently in each loop.
- **The fetch.** Its outcome is an argument: `Fetched(body)` or
  `Failed(message)`.

The comment at `cache/cache_entry.go:99-100` describes stale-on-failure:
keep a cached body and hide the error. The code at lines
98-105 does the opposite:

- with a cached body, a failure clears it and records the error;
- without one, a failure leaves the entry as it was, so an entry whose
  first fetch fails is served as `("", nil)`.

The model follows the code. `Cache.StaleOnFailure` states the described
policy, and `Cache.PolicyAsWrittenVsStaleOnFailure` states exactly when
the two agree.

## Model

| member | source | states |
|---|---|---|
| RpcRequest.Hash | rpc/cmd_request.go:47-54 | the id is the hash of Method+Url+Body followed by every header string in list order, with no separators |
| RpcRequest.ConcatAppend | rpc/cmd_request.go:48-51 | concatenating the header strings distributes over splitting the list |
| RpcRequest.PreImageLayout | rpc/cmd_request.go:48-53 | the pre-image is the fixed fields, then the headers before i, header i, and the headers after it |
| RpcRequest.HeaderSplitCollision | rpc/cmd_request.go:48-53 | splitting one header string into two non-empty ones gives a different request with the same pre-image, hence the same id |
| RpcRequest.BoundaryShiftCollision | rpc/cmd_request.go:53 | appending non-empty text to the URL or prepending it to the body gives two different requests with the same pre-image |
| RpcRequest.TtlNotHashed | rpc/cmd_request.go:53 | the TTL does not take part in the pre-image |
| RpcRequest.MethodCaseMatters | rpc/cmd_request.go:53 | "get" and "GET" give different pre-images, and some hash separates them, although both upper-case to the same stored method |
| RpcRequest.GetHeaders | rpc/cmd_request.go:56-69 | the loop returns exactly ParseHeaders of the list: the first malformed string as the error with no map, otherwise every field; an empty list gives an empty map |
| RpcRequest.ParseHeadersExtend | rpc/cmd_request.go:59-66 | a well-formed string extends a successful parse by Add of its trimmed name and value |
| RpcRequest.ParseHeadersFailsAt | rpc/cmd_request.go:60-63 | a malformed string after a successful prefix is the final result, whatever follows |
| RpcRequest.AllWellFormedEach | rpc/cmd_request.go:59-63 | the recursive all-well-formed test equals "every string has exactly one colon" |
| RpcRequest.ParseHeadersStep | rpc/cmd_request.go:59-63 | one more string parses iff the prefix parses and the string is well formed |
| RpcRequest.ParseHeadersSucceedsAll | rpc/cmd_request.go:59-68 | parsing succeeds iff every string is well formed, checked last to first |
| RpcRequest.ParseHeadersSucceedsIff | rpc/cmd_request.go:59-68 | parsing succeeds iff every header string holds exactly one ':'; zero colons or two or more are rejected |
| RpcRequest.ParseHeadersFirstError | rpc/cmd_request.go:60-63 | the error names the first malformed header string |
| RpcRequest.ParseHeadersValues | rpc/cmd_request.go:65 | on success a name is present iff some string carries it, and its values are the trimmed values of those strings in list order |
| LegacyRequest.Hash | cmd_request.go:43-50 | the id is the hash of Method+Url+Body followed by key+":"+value for every header, in the order range visits them |
| LegacyRequest.FieldsLengthRemove | cmd_request.go:45-47 | the total field length of a key set is one field's length plus the rest |
| LegacyRequest.SerializeLength | cmd_request.go:45-47 | the serialised headers are as long as the sum of their fields, in any order |
| LegacyRequest.PreImageShape | cmd_request.go:44-49 | in every visiting order, the pre-image has length \|M\|+\|U\|+\|B\|+Σ(\|k\|+1+\|v\|) and starts with Method+Url+Body |
| LegacyRequest.PreImageUniqueForOneHeader | cmd_request.go:44-49 | with at most one header, every visiting order gives the same pre-image |
| LegacyRequest.OrderOfSmallMap | cmd_request.go:45 | a map with no key is visited as [], and one with a single key as [that key] |
| LegacyRequest.DistinctLength | cmd_request.go:45 | a visiting order has as many entries as distinct keys |
| LegacyRequest.OrderChangesPreImage | cmd_request.go:45-49 | for some two-header map (here {a:1, b:2}) the two visiting orders give different pre-images, so the id depends on Go's map order |
| Cache.Refresh | cache/cache_entry.go:70-109 | one pass: it evicts iff the timeout is set and exceeded, and eviction changes nothing else; otherwise the gate is released, first is cleared and LastAccess is kept; a success stores the body and clears the error; a failure with a body clears the body and stores the error; a failure without one changes nothing; gateHeld == first is preserved |
| Cache.Run | cache/cache_entry.go:70-111 | a series of non-evicting passes keeps the entry live and LastAccess unchanged |
| Cache.LastSuccess | cache/cache_entry.go:94-105 | the index of the last successful fetch, after which every fetch failed; None when every fetch failed |
| Cache.RunObserved | cache/cache_entry.go:67-111 | from its creation state, the refresher serves exactly Observed: ("", nil) while nothing has succeeded; otherwise the last body, or ("", the first error after it) once a failure follows a non-empty body |
| Cache.FirstFailureServedAsEmpty | cache/cache_entry.go:98-105 | an entry whose first fetch fails is served as ("", nil) |
| Cache.FailureErasesBody | cache/cache_entry.go:98-105 | after a non-empty body, a failure and any further failures leave no body and the first error |
| Cache.LastSuccessAfter | cache/cache_entry.go:94-105 | a success followed only by failures is the last success |
| Cache.StaleOnFailure | cache/cache_entry.go:99-100 | the policy the comment describes: a failure never changes the body, and an error is reported exactly when a failure finds no body to fall back on |
| Cache.PolicyAsWrittenVsStaleOnFailure | cache/cache_entry.go:94-105 | the code and the described policy agree on every success, and on a failure only when the body is empty and the same error is already stored |
| Cache.Entry.constructor | cache/service.go:87-95 | a new entry keeps its request fields, has no body and no error, LastAccess = now, and the gate held on the first pass |
| Cache.Entry.String | cache/cache_entry.go:57-59 | the id in lower-case hex: only the digits 0-9a-f, no leading zero, "0" exactly for id 0, and it reads back as the id |
| Cache.Entry.Step | cache/cache_entry.go:66-111 | the new entry state is Refresh of the old one; an eviction removes exactly this id and lowers the size gauge by one; the counters and timeout are unchanged; the table invariant and the gate discipline hold |
| Cache.Entry.Evict | cache/cache_entry.go:72-76 | the idle branch removes exactly this id, marks the refresher finished and keeps the table invariant |
| Cache.Entry.Read | cache/service.go:129-136 | once the gate is free, the read sets LastAccess to now and returns the stored response and error |
| Cache.Service.constructor | cache/service.go:60-65 | an empty table, no timeout, and counters at zero |
| Cache.Service.Request | cache/service.go:72-127 | a hit returns the stored entry and only the hit counter rises; a miss that fails validation returns the header error or ErrInvalidTtl; it changes nothing; a valid miss inserts exactly the new id with an upper-cased method, the parsed headers, TTL·1s, no body, no error, LastAccess = now and the gate held; size and miss counters rise by one |
| Cache.Service.Insert | cache/service.go:117-122 | the new entry is stored under its id, and the size and miss counts rise by one |
| Cache.Service.Remove | cache/service.go:144-149 | deletes the id, a no-op on the table when it is absent; the size gauge drops by one either way, so the table invariant survives only when the id was present |
| Cache.AdmitHeadersFirst | cache/service.go:98-110 | a malformed header is reported before the TTL is looked at |
| Cache.AdmitTtl | cache/service.go:91-110 | with well-formed headers and a TTL whose nanosecond count fits int64, a miss is rejected iff ttl <= 0, and then with ErrInvalidTtl |
| LegacyCache.Values | cache.go:105 | the header values, in the order range visits their keys |
| LegacyCache.ParseMapHeadersAsListSuccess | cache.go:105-114 | the map loop fails iff the list parser fails on the values in the same order |
| LegacyCache.ParseMapHeadersAsList | cache.go:105-114 | on success the map loop builds the same header map as the list parser on the values |
| LegacyCache.ParseMapHeadersSucceedsIff | cache.go:105-114 | the headers are accepted iff every value holds exactly one ':', in any visiting order |
| LegacyCache.ParseMapHeadersFirstError | cache.go:106-111 | the error names the key of the first malformed value in visiting order |
| LegacyCache.ParseMapHeadersExtend | cache.go:113 | a well-formed value adds its trimmed halves to a successful parse |
| LegacyCache.ParseMapHeadersFailsAt | cache.go:106-111 | a malformed value after a successful prefix is the final error |
| LegacyCache.ReportedKeyDependsOnOrder | cache.go:105-111 | with two malformed values, which key the error names depends on the visiting order |
| LegacyCache.AdmitOrderIndependent | cache.go:105-121 | whether a miss is admitted does not depend on the visiting order: iff every value is well formed and the TTL is at least 1s |
| LegacyCache.BuildHeaders | cache.go:104-114 | the header loop returns exactly ParseMapHeaders |
| LegacyCache.Refresh | cache.go:153-167 | a pass overwrites the pair with what update returned ("" and the error on failure) and releases the gate |
| LegacyCache.RunServesLast | cache.go:151-171 | after any passes, only the latest fetch is served |
| LegacyCache.CacheEntry.constructor | cache.go:95-102 | a new entry keeps its request fields, has no body and no error, and the gate held on the first pass |
| LegacyCache.CacheEntry.Step | cache.go:151-170 | the new state is Refresh of the old one, and the gate discipline holds |
| LegacyCache.CacheEntry.Read | cache.go:134-140 | once the gate is free, the read returns the stored pair |
| LegacyCache.CacheService.constructor | cache.go:70-74 | an empty table |
| LegacyCache.CacheService.Request | cache.go:80-132 | a hit returns the stored entry with the table unchanged; an invalid miss returns the key-named header error or ErrInvalidTtl with the table unchanged; a valid miss inserts exactly the new id with an upper-cased method, TTL·1s, the label Hex(id), no body and the gate held |
| LegacyCache.CacheService.Insert | cache.go:128-129 | the new entry is stored under its id, and every entry keeps its label and gate discipline |
| LegacyCache.LabelsDistinct | cache.go:101 | two entries under different ids carry different labels |
| GoStrings.Split | rpc/cmd_request.go:60 | strings.Split returns at least one piece |
| GoStrings.SplitCount | rpc/cmd_request.go:60-61 | Split gives one more piece than there are separators, so len(h) == 2 means exactly one ':' |
| GoStrings.SplitPiecesFree | rpc/cmd_request.go:60 | no piece contains the separator |
| GoStrings.JoinSplit | rpc/cmd_request.go:60 | joining the pieces with the separator restores the string |
| GoStrings.SplitAfter | rpc/cmd_request.go:60 | a separator-free prefix is split off as one piece |
| GoStrings.SplitJoin | rpc/cmd_request.go:60 | splitting the join of separator-free pieces returns those pieces |
| GoStrings.SplitInTwo | rpc/cmd_request.go:60-65 | a string with one ':' is the two colon-free pieces joined by ':' |
| GoStrings.LeadingSpace | rpc/cmd_request.go:65 | the length of the run of leading white space |
| GoStrings.TrailingSpace | rpc/cmd_request.go:65 | the length of the run of trailing white space |
| GoStrings.TrimSpace | rpc/cmd_request.go:65 | the result is the middle of the string, with only white space removed on either side, and it neither starts nor ends with white space |
| GoStrings.TrimSpaceIdempotent | rpc/cmd_request.go:65 | trimming twice is trimming once |
| GoStrings.ToUpper | cache/service.go:88 | same length, each character upper-cased, and no lower-case letter left |
| GoStrings.ToUpperIgnoresCase | cache/service.go:88 | strings that differ only in letter case upper-case to the same method |
| GoFmt.Hex | cache/cache_entry.go:58 | %x yields at least one digit |
| GoFmt.DigitRoundTrip | cache/cache_entry.go:58 | each hex digit reads back as its value |
| GoFmt.HexRoundTrip | cache/cache_entry.go:58 | the %x rendering reads back as the number |
| GoFmt.HexCanonical | cache/cache_entry.go:58 | only the digits 0-9a-f; a leading '0' only for zero, which renders as "0" |
| GoFmt.HexInjective | cache.go:101 | different ids get different renderings |
| GoTime.Wrap64 | cache/service.go:91 | the result is the int64 congruent to the product modulo 2^64 |
| GoTime.Wrap64Fits | cache/service.go:91 | a product that fits int64 is unchanged |
| Headers.Add | rpc/cmd_request.go:65 | the value is appended under the name; no other name changes |
| Headers.ParseField | rpc/cmd_request.go:60-65 | a field has a value iff it holds exactly one ':', and then it is the trimmed text before and after that colon |
| Validation.TtlFloor | cache/service.go:91-106 | for TTLs whose nanosecond count fits int64, the TTL is too low iff it is not positive |
| Validation.TtlOverflowRejected | cache/service.go:91-106 | the positive TTL 9223372037, whose nanosecond count overflows int64, wraps negative and is rejected |
| Validation.TtlOverflowAccepted | cache/service.go:91-106 | the positive TTL 18446744075 overflows too, but wraps to 1290448384 ns (about 1.29 s) and is accepted |
| Scenarios.FirstRequestThenHit | cache/service.go:72-137 | a miss, then a first fetch of "OK": the waiting caller and a later caller both get ("OK", nil), with one entry, one miss and one hit |
| Scenarios.SplitHeaderFacts | rpc/cmd_request.go:47-66 | ["a:b"] and ["a", ":b"] have the same pre-image, and only the first is admitted |
| Scenarios.MalformedHeaderServedFromCache | cache/service.go:80-126 | ["a", ":b"] is rejected alone with the error for "a", but is served from the entry made for ["a:b"], because a hit validates nothing |
| Scenarios.InvalidTtlRejected | cache/service.go:105-110 | ttl 0 and an overflowing ttl are both refused with ErrInvalidTtl, and the table stays empty |
| Scenarios.IdleEntryEvicted | cache/cache_entry.go:72-76 | the creator reads "OK" after the first pass; a pass within the timeout of that read keeps the entry, a later one removes it, and the same request then builds a new entry as a second miss |
| Scenarios.EvictedBeforeFirstFetch | cache/cache_entry.go:72-107 | eviction on the first pass leaves the creator's hold on the gate in place |
| Scenarios.RemoveAbsentId | cache/service.go:144-149 | removing an absent id leaves the size gauge at -1 on an empty table |
| Scenarios.FailureAfterSuccess | cache/cache_entry.go:98-105 | a failure after a body is served as ("", the error) |
| Scenarios.ErrorPersists | cache/cache_entry.go:98-105 | a further failure keeps the first error |
| Scenarios.SuccessRestores | cache/cache_entry.go:94-96 | the next success serves its body and no error |
| Scenarios.FirstFailureNewer | cache/cache_entry.go:98-105 | in the newer revision a failing first fetch is served as ("", nil) |
| Scenarios.FirstFailureOlder | cache.go:153-167 | in the older revision a failing first fetch is served as ("", the error) |

## Left out

- JSON decoding of the RPC body (cache/service.go:75, cache.go:83): the model takes the decoded descriptor, so a decode error is not modelled.
- xxhash: an arbitrary function on the pre-image string, as described above.
- The HTTP round trip in `fetch` and `update` (`http.NewRequest`, `client.Do`, `ioutil.ReadAll`): network I/O, reduced to its outcome.
- Goroutines, the table mutex and the entry RWMutex: the model is sequential. The gate is a flag, and the point where `RLock` would wait is the precondition of `Read`.
- `time.Sleep(Ttl)` between passes: no pass depends on it.
- The unsynchronised write of `LastAccess` at cache/service.go:134 races with the refresher's read. The model orders them as calls.
- The Prometheus metrics in `metric/metric.go`: they become the plain counters `hits`, `misses` and `size`.
- Logging through logrus, and `main.go` (flags, listener, RPC codec): bootstrap and I/O.
- Headers.Add: does not canonicalise the header name as `http.Header.Add` does (textproto.CanonicalMIMEHeaderKey). Names are stored as trimmed.
- GoStrings.TrimSpace: trims ASCII white space only, not the rest of Go's Unicode white-space table.
- GoStrings.ToUpper: maps ASCII letters only; Go's strings.ToUpper also maps other Unicode letters.
- The error texts: `fmt.Errorf` messages become the constructors of `Validation.Error`. `BadHeaderAt(key)` in cache.go carries the map key that the `%d` verb is given.
- Cache.Service.Request: returns the entry, not the pair. The read phase is `Cache.Entry.Read`, because the wait on the gate separates the two phases.
- Cache.Run: covers only non-evicting passes, with the timeout off; eviction is stated per pass by Cache.Refresh.
