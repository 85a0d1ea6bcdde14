/** The errors the cache returns to its callers, and the TTL floor that
    both revisions apply to a new entry. */
module Validation {
  import opened GoTime

  datatype Error =
    | BadHeader(header: string)   // rpc/cmd_request.go: `header "<text>" is badly formated`
    | BadHeaderAt(key: string)    // cache.go: `header[<key>] is badly formated`
    | InvalidTtl                  // ErrInvalidTtl: "ttl should be at least 1s"

  /** `entry.Ttl < time.Second`, where entry.Ttl is the request's TTL in
      seconds converted to a Duration with 64-bit wrap-around. */
  predicate TtlTooLow(ttl: Int64)
  {
    Seconds(ttl) < Second
  }

  /** Without overflow the floor is exactly "at least one second": TTL 0
      and below are rejected, TTL 1 and above accepted. */
  lemma TtlFloor(ttl: Int64)
    requires -9_223_372_036 <= ttl <= 9_223_372_036
    ensures TtlTooLow(ttl) <==> ttl <= 0
  {
    Wrap64Fits(ttl * Second);
  }

  /** A TTL just past the overflow bound is positive and still rejected:
      9223372037 seconds wrap around to a negative Duration. */
  lemma TtlOverflowRejected()
    ensures 9_223_372_037 > 0 && TtlTooLow(9_223_372_037)
  {
    assert Seconds(9_223_372_037) == 9_223_372_037_000_000_000 - Two64;
  }

  /** A larger overflowing TTL can wrap around to a positive Duration of
      at least one second and be accepted: 18446744075 seconds become
      1290448384 nanoseconds, about 1.29 s. */
  lemma TtlOverflowAccepted()
    ensures Seconds(18_446_744_075) == 1_290_448_384
    ensures !TtlTooLow(18_446_744_075)
  {
    assert 18_446_744_075 * Second == 1_290_448_384 + Two64;
  }
}
