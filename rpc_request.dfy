/** rpc/cmd_request.go: the decoded request descriptor of the newer
    revision, its cache identity and its list-of-strings header parser. */
module RpcRequest {
  import opened Wrappers
  import opened GoStrings
  import opened GoTime
  import opened Headers
  import opened Validation

  /** CmdRequest after JSON decoding. Headers are "Name: Value" strings in
      the order the caller sent them; Ttl is in seconds. */
  datatype CmdRequest = CmdRequest(
    httpMethod: string,
    url: string,
    body: string,
    headers: seq<string>,
    ttl: Int64)

  /** The header strings one after another, with no separator. */
  function Concat(hs: seq<string>): string
  {
    if |hs| == 0 then "" else Concat(hs[..|hs| - 1]) + hs[|hs| - 1]
  }

  /** The string that Hash feeds to xxhash. The TTL is not part of it. */
  function PreImage(r: CmdRequest): string
  {
    r.httpMethod + r.url + r.body + Concat(r.headers)
  }

  /** CmdRequest.Hash: concatenates the headers in a loop and hashes
      Method+Url+Body+headers. `hash` stands for xxhash.Sum64String. */
  method Hash(r: CmdRequest, hash: string -> UInt64) returns (id: UInt64)
    ensures id == hash(PreImage(r))
  {
    var headers := "";
    var i := 0;
    while i < |r.headers|
      invariant 0 <= i <= |r.headers|
      invariant headers == Concat(r.headers[..i])
    {
      assert r.headers[..i + 1][..i] == r.headers[..i];
      headers := headers + r.headers[i];
      i := i + 1;
    }
    assert r.headers[..i] == r.headers;
    id := hash(r.httpMethod + r.url + r.body + headers);
  }

  /** Concatenation distributes over splitting the list anywhere. */
  lemma {:induction false} ConcatAppend(a: seq<string>, b: seq<string>)
    ensures Concat(a + b) == Concat(a) + Concat(b)
    decreases |b|
  {
    if |b| > 0 {
      var b' := b[..|b| - 1];
      assert (a + b)[..|a + b| - 1] == a + b';
      ConcatAppend(a, b');
    } else {
      assert a + b == a;
    }
  }

  /** Header i sits in the pre-image right after Method, Url, Body and the
      headers before it, and right before the headers after it. */
  lemma PreImageLayout(r: CmdRequest, i: nat)
    requires i < |r.headers|
    ensures PreImage(r) ==
      r.httpMethod + r.url + r.body + Concat(r.headers[..i]) + r.headers[i] + Concat(r.headers[i + 1..])
  {
    var hs := r.headers;
    assert hs == hs[..i + 1] + hs[i + 1..];
    ConcatAppend(hs[..i + 1], hs[i + 1..]);
    assert hs[..i + 1][..i] == hs[..i];
  }

  /** Splitting one header string into two adjacent ones keeps the
      pre-image, so ["a", "b"] and ["ab"] share an id. */
  lemma HeaderSplitCollision(r: CmdRequest, i: nat, a: string, b: string)
    requires i <= |r.headers|
    requires a != "" && b != ""
    ensures var r1 := r.(headers := r.headers[..i] + [a, b] + r.headers[i..]);
            var r2 := r.(headers := r.headers[..i] + [a + b] + r.headers[i..]);
            r1 != r2 && PreImage(r1) == PreImage(r2)
  {
    var pre, post := r.headers[..i], r.headers[i..];
    ConcatAppend(pre + [a, b], post);
    ConcatAppend(pre + [a + b], post);
    ConcatAppend(pre, [a, b]);
    ConcatAppend(pre, [a + b]);
    assert [a, b][..1] == [a];
    assert |pre + [a, b] + post| != |pre + [a + b] + post|;
  }

  /** Moving text across the Url/Body boundary keeps the pre-image. */
  lemma BoundaryShiftCollision(r: CmdRequest, x: string)
    requires x != ""
    ensures var r1 := r.(url := r.url + x);
            var r2 := r.(body := x + r.body);
            r1 != r2 && PreImage(r1) == PreImage(r2)
  {
    assert |r.url + x| != |r.url|;
  }

  /** The TTL is not hashed: requests that differ only in TTL share an id. */
  lemma TtlNotHashed(r: CmdRequest, ttl: Int64)
    ensures PreImage(r.(ttl := ttl)) == PreImage(r)
  {
  }

  /** The method is hashed as given: "get" and "GET" give different
      pre-images (and some hash tells them apart) although both upper-case
      to the method the entry stores. */
  lemma MethodCaseMatters(r: CmdRequest)
    ensures var r1 := r.(httpMethod := "get");
            var r2 := r.(httpMethod := "GET");
            && PreImage(r1) != PreImage(r2)
            && ToUpper(r1.httpMethod) == ToUpper(r2.httpMethod)
            && var h := (s: string) => if s == PreImage(r1) then 0 else 1;
               h(PreImage(r1)) != h(PreImage(r2))
  {
    var r1 := r.(httpMethod := "get");
    var r2 := r.(httpMethod := "GET");
    assert PreImage(r1)[0] != PreImage(r2)[0];
    ToUpperIgnoresCase("get", "GET");
  }

  /** What GetHeaders returns for a list of header strings: the first
      malformed one is the error; otherwise every string adds its trimmed
      value under its trimmed name, in list order. */
  function ParseHeaders(hs: seq<string>): Result<Header, Error>
  {
    if |hs| == 0 then Success(map[])
    else
      var last := hs[|hs| - 1];
      match ParseHeaders(hs[..|hs| - 1])
      case Failure(e) => Failure(e)
      case Success(m) =>
        match ParseField(last)
        case None => Failure(BadHeader(last))
        case Some(field) => Success(Add(m, field.0, field.1))
  }

  /** CmdRequest.GetHeaders: fills a header map in a loop and gives up on
      the first malformed string, returning no map at all. */
  method GetHeaders(r: CmdRequest) returns (res: Result<Header, Error>)
    ensures res == ParseHeaders(r.headers)
    ensures |r.headers| == 0 ==> res == Success(map[])
  {
    var headers: Header := map[];
    var i := 0;
    while i < |r.headers|
      invariant 0 <= i <= |r.headers|
      invariant ParseHeaders(r.headers[..i]) == Success(headers)
    {
      var h := Split(r.headers[i], ':');
      if |h| != 2 {
        SplitCount(r.headers[i], ':');
        ParseHeadersFailsAt(r.headers, i);
        return Failure(BadHeader(r.headers[i]));
      }
      SplitCount(r.headers[i], ':');
      ParseHeadersExtend(r.headers, i);
      headers := Add(headers, TrimSpace(h[0]), TrimSpace(h[1]));
      i := i + 1;
    }
    assert r.headers[..i] == r.headers;
    return Success(headers);
  }

  /** A well-formed string extends a successful parse by its field. */
  lemma ParseHeadersExtend(hs: seq<string>, i: nat)
    requires i < |hs| && ParseHeaders(hs[..i]).Success? && WellFormed(hs[i])
    ensures ParseHeaders(hs[..i + 1]) ==
      Success(Add(ParseHeaders(hs[..i]).value, ParseField(hs[i]).value.0, ParseField(hs[i]).value.1))
  {
    assert hs[..i + 1][..i] == hs[..i];
  }

  /** A malformed string after a successful parse is the final error. */
  lemma ParseHeadersFailsAt(hs: seq<string>, i: nat)
    requires i < |hs| && ParseHeaders(hs[..i]).Success? && !WellFormed(hs[i])
    ensures ParseHeaders(hs) == Failure(BadHeader(hs[i]))
  {
    ParseHeadersSucceedsIff(hs[..i]);
    assert forall j :: 0 <= j < i ==> hs[..i][j] == hs[j];
    ParseHeadersFirstError(hs, i);
  }

  /** Every header string, checked last to first (the shape ParseHeaders
      recurses on). */
  predicate AllWellFormed(hs: seq<string>)
  {
    |hs| == 0 || (AllWellFormed(hs[..|hs| - 1]) && WellFormed(hs[|hs| - 1]))
  }

  lemma {:induction false} AllWellFormedEach(hs: seq<string>)
    ensures AllWellFormed(hs) <==> forall i :: 0 <= i < |hs| ==> WellFormed(hs[i])
  {
    if |hs| > 0 {
      var pre := hs[..|hs| - 1];
      AllWellFormedEach(pre);
      assert forall i :: 0 <= i < |pre| ==> pre[i] == hs[i];
    }
  }

  /** One more header string: parsing succeeds when the shorter list
      parses and the new string is well formed. */
  lemma ParseHeadersStep(hs: seq<string>)
    requires |hs| > 0
    ensures ParseHeaders(hs).Success? <==> ParseHeaders(hs[..|hs| - 1]).Success? && WellFormed(hs[|hs| - 1])
  {
  }

  lemma {:induction false} ParseHeadersSucceedsAll(hs: seq<string>)
    ensures ParseHeaders(hs).Success? <==> AllWellFormed(hs)
  {
    if |hs| > 0 {
      ParseHeadersSucceedsAll(hs[..|hs| - 1]);
      ParseHeadersStep(hs);
    }
  }

  /** Parsing succeeds exactly when every header string has one ':'. */
  lemma ParseHeadersSucceedsIff(hs: seq<string>)
    ensures ParseHeaders(hs).Success? <==> forall i :: 0 <= i < |hs| ==> WellFormed(hs[i])
  {
    ParseHeadersSucceedsAll(hs);
    AllWellFormedEach(hs);
  }

  /** The error names the first malformed header string, whatever follows. */
  lemma {:induction false} ParseHeadersFirstError(hs: seq<string>, j: nat)
    requires j < |hs| && !WellFormed(hs[j])
    requires forall i :: 0 <= i < j ==> WellFormed(hs[i])
    ensures ParseHeaders(hs) == Failure(BadHeader(hs[j]))
  {
    var pre := hs[..|hs| - 1];
    if j == |hs| - 1 {
      ParseHeadersSucceedsIff(pre);
    } else {
      ParseHeadersFirstError(pre, j);
    }
  }

  /** The trimmed values that well-formed header strings give for a name,
      in list order. */
  function ValuesFor(hs: seq<string>, name: string): seq<string>
  {
    if |hs| == 0 then []
    else
      var extra := match ParseField(hs[|hs| - 1])
        case Some(field) => if field.0 == name then [field.1] else []
        case None => [];
      ValuesFor(hs[..|hs| - 1], name) + extra
  }

  /** On success the map holds a name exactly when some header string
      carries it, and then holds all its values, in list order. */
  lemma {:induction false} ParseHeadersValues(hs: seq<string>, name: string)
    requires ParseHeaders(hs).Success?
    ensures name in ParseHeaders(hs).value <==> ValuesFor(hs, name) != []
    ensures name in ParseHeaders(hs).value ==> ParseHeaders(hs).value[name] == ValuesFor(hs, name)
  {
    if |hs| > 0 {
      ParseHeadersValues(hs[..|hs| - 1], name);
    }
  }
}
