/** Timeouts of policies, turned into nanoseconds by the connection manager
    (aerospike-connection-manager/kvs.go). */
module Policies {
  import opened Basics

  const MILLISECOND: nat := 1_000_000
  const TWO_TO_THE_32: nat := 0x1_0000_0000

  type uint32 = u: int | 0 <= u < TWO_TO_THE_32

  /** `time.Duration(in.Timeout * uint32(time.Millisecond))` of the admin and info policies. */
  function AdminTimeout(millis: uint32): nat {
    (millis * MILLISECOND) % TWO_TO_THE_32
  }

  /** `time.Duration(in.TotalTimeout * uint64(time.Millisecond))` of the read policy; the socket timeout
      is converted alike. */
  function ReadTimeout(millis: uint64): int64 {
    AsI64((millis * MILLISECOND) % TWO_TO_THE_64)
  }

  /** An admin timeout is the product modulo 2^32, so it is exact up to 4294 milliseconds and wraps beyond. */
  lemma AdminTimeoutExact(millis: uint32)
    ensures 0 <= AdminTimeout(millis) < TWO_TO_THE_32
    ensures exists q :: millis * MILLISECOND == AdminTimeout(millis) + q * TWO_TO_THE_32
    ensures AdminTimeout(millis) == millis * MILLISECOND <==> millis <= 4294
  {
    var ns := millis * MILLISECOND;
    assert ns == AdminTimeout(millis) + (ns / TWO_TO_THE_32) * TWO_TO_THE_32;
    if millis <= 4294 {
      assert 0 <= millis * MILLISECOND < TWO_TO_THE_32;
    } else {
      assert millis * MILLISECOND >= TWO_TO_THE_32 > AdminTimeout(millis);
    }
  }

  /** A read timeout is the product modulo 2^64 as a signed number, so it is exact, and not negative, up to
      9223372036854 milliseconds. */
  lemma ReadTimeoutExact(millis: uint64)
    ensures exists q :: millis * MILLISECOND == ReadTimeout(millis) + q * TWO_TO_THE_64
    ensures ReadTimeout(millis) == millis * MILLISECOND <==> millis <= 9223372036854
  {
    var ns: int := millis * MILLISECOND;
    var q, low := ns / TWO_TO_THE_64, ns % TWO_TO_THE_64;
    assert ns == low + q * TWO_TO_THE_64;
    assert ns == ReadTimeout(millis) + (if low < TWO_TO_THE_63 then q else q + 1) * TWO_TO_THE_64;
    if millis <= 9223372036854 {
      assert 0 <= ns < TWO_TO_THE_63;
      assert ns % TWO_TO_THE_64 == ns;
    } else {
      assert ns >= 9223372036855 * MILLISECOND >= TWO_TO_THE_63 > ReadTimeout(millis);
    }
  }
}
