/** What is assumed of the Aerospike server: how it stores records, and how it answers a scan with a
    partition filter. */
module ScanContract {
  import opened Basics
  import opened Wire
  import opened Keys
  import opened Recordsets
  import opened ScanServer

  // ----- The server's contract -----

  /** Digests are ordered byte by byte; the empty digest comes first. */
  predicate Less(a: seq<byte>, b: seq<byte>) {
    if b == [] then false
    else if a == [] then true
    else a[0] < b[0] || (a[0] == b[0] && Less(a[1..], b[1..]))
  }

  /** What the server stores: for each partition its keyed records in digest order. */
  ghost predicate Stored(data: seq<seq<GoRecord>>) {
    && |data| == PARTITIONS
    && (forall p, i | 0 <= p < PARTITIONS && 0 <= i < |data[p]| ::
          data[p][i].key.Some? && KeyIn(data[p][i].key.value, p))
    && (forall p | 0 <= p < PARTITIONS :: Ascending(data[p]))
  }

  ghost predicate Ascending(recs: seq<GoRecord>) {
    && (forall r | r in recs :: r.key.Some? && r.key.value.digest != [])
    && forall i, j | 0 <= i < j < |recs| :: Less(recs[i].key.value.digest, recs[j].key.value.digest)
  }

  /** The cursor the server finds for partition `p`: the digest in the status entry with that id. */
  ghost function CursorFor(gf: GoPartitionFilter, p: nat): seq<byte> {
    if exists i :: 0 <= i < |gf.Partitions| && gf.Partitions[i].Some? && gf.Partitions[i].value.Id == p then
      var i :| 0 <= i < |gf.Partitions| && gf.Partitions[i].Some? && gf.Partitions[i].value.Id == p;
      gf.Partitions[i].value.Digest
    else []
  }

  /** The records strictly after a cursor, in digest order. */
  function After(recs: seq<GoRecord>, cursor: seq<byte>): seq<GoRecord> {
    if recs == [] then []
    else if recs[0].key.Some? && Less(cursor, recs[0].key.value.digest) then [recs[0]] + After(recs[1..], cursor)
    else After(recs[1..], cursor)
  }

  /** The rows of partition `p` among the results, in order. */
  ghost function RowsOf(results: seq<Result>, p: nat): seq<GoRecord> {
    if results == [] then [] else
    var init, last := RowsOf(results[..|results| - 1], p), results[|results| - 1];
    if InPartition(last, p) then init + [last.record.value] else init
  }

  ghost predicate InPartition(res: Result, p: nat) {
    res.Row? && res.record.Some? && res.record.value.key.Some? && KeyIn(res.record.value.key.value, p)
  }

  /** The server answers a filter with the requested partitions interleaved in any way, each from
      strictly after its cursor, with errors possibly in between. */
  ghost predicate Serves(data: seq<seq<GoRecord>>, gf: GoPartitionFilter, results: seq<Result>) {
    && Genuine(gf.Begin, gf.Count, results)
    && forall p | gf.Begin <= p < gf.Begin + gf.Count && p < |data| ::
         RowsOf(results, p) == After(data[p], CursorFor(gf, p))
  }

  /** Every result is an error or a keyed row of a requested partition. */
  ghost predicate Genuine(begin: nat, count: nat, results: seq<Result>) {
    forall i | 0 <= i < |results| ::
      results[i].Failed? ||
      exists p | begin <= p < begin + count && p < PARTITIONS :: InPartition(results[i], p)
  }

  /** The first `n` events are messages that carry the first `n` results. */
  ghost predicate Sent(results: seq<Result>, events: seq<Event>, n: nat) {
    && n <= |results| && n <= |events|
    && forall k | 0 <= k < n :: events[k].Message? && Carried(results[k], events[k].response)
  }

  /** What the stream of a scan with filter `pf` yields: the first `n` results of an answer, then nothing
      but trouble. A failing open or a broken connection is such a cut answer. */
  ghost predicate Answered(
    data: seq<seq<GoRecord>>, pf: PartitionFilter, events: seq<Event>, results: seq<Result>, n: nat
  ) {
    && Serves(data, ToPartitionFilter(pf), results)
    && Sent(results, events, n)
    && forall k | n <= k < |events| :: Trouble(events[k])
  }

  /** `rows` carry the records of a partition from place `r` on. */
  ghost predicate Matches(rows: seq<Record>, recs: seq<GoRecord>, r: nat) {
    r + |rows| <= |recs| && forall k | 0 <= k < |rows| :: RecordCarried(recs[r + k], rows[k])
  }

  // ----- Digest order -----

  lemma {:induction false} LessTransitive(a: seq<byte>, b: seq<byte>, c: seq<byte>)
    requires Less(a, b) && Less(b, c)
    ensures Less(a, c)
  {
    if a != [] && a[0] == b[0] && b[0] == c[0] {
      LessTransitive(a[1..], b[1..], c[1..]);
    }
  }

  lemma {:induction false} LessIrreflexive(a: seq<byte>)
    ensures !Less(a, a)
  {
    if a != [] {
      LessIrreflexive(a[1..]);
    }
  }

  lemma LessAsymmetric(a: seq<byte>, b: seq<byte>)
    requires Less(a, b)
    ensures !Less(b, a)
  {
    if Less(b, a) {
      LessTransitive(a, b, a);
      LessIrreflexive(a);
    }
  }

  lemma {:induction false} AfterAll(recs: seq<GoRecord>, c: seq<byte>)
    requires Ascending(recs)
    requires forall r | r in recs :: Less(c, r.key.value.digest)
    ensures After(recs, c) == recs
  {
    if recs != [] {
      assert recs[0] in recs && forall r | r in recs[1..] :: r in recs;
      AfterAll(recs[1..], c);
    }
  }

  /** After the i-th record of an ascending partition come exactly the ones behind it. */
  lemma {:induction false} AfterMember(recs: seq<GoRecord>, i: nat)
    requires Ascending(recs) && i < |recs|
    ensures After(recs, recs[i].key.value.digest) == recs[i + 1..]
  {
    var c, tail := recs[i].key.value.digest, recs[1..];
    assert forall r | r in tail :: r in recs;
    if i == 0 {
      LessIrreflexive(c);
      forall r | r in tail ensures Less(c, r.key.value.digest) {
        var j :| 0 <= j < |tail| && tail[j] == r;
        assert recs[j + 1] == r;
      }
      AfterAll(tail, c);
    } else {
      assert Less(recs[0].key.value.digest, c);
      LessAsymmetric(recs[0].key.value.digest, c);
      assert tail[i - 1] == recs[i];
      AfterMember(tail, i - 1);
      assert tail[i..] == recs[i + 1..];
    }
  }

  lemma AfterNothing(recs: seq<GoRecord>)
    requires Ascending(recs)
    ensures After(recs, []) == recs
  {
    AfterAll(recs, []);
  }

  /** How many records lie at or before a cursor. */
  function Rank(recs: seq<GoRecord>, cursor: seq<byte>): nat {
    AfterShorter(recs, cursor);
    |recs| - |After(recs, cursor)|
  }

  lemma {:induction false} AfterShorter(recs: seq<GoRecord>, c: seq<byte>)
    ensures |After(recs, c)| <= |recs|
  {
    if recs != [] {
      AfterShorter(recs[1..], c);
    }
  }

  /** What lies after a cursor is a suffix of the partition, whatever the cursor. */
  lemma {:induction false} AfterSuffix(recs: seq<GoRecord>, c: seq<byte>)
    requires Ascending(recs)
    ensures After(recs, c) == recs[Rank(recs, c)..]
  {
    if recs != [] {
      var tail := recs[1..];
      assert forall r | r in tail :: r in recs;
      if Less(c, recs[0].key.value.digest) {
        forall r | r in recs ensures Less(c, r.key.value.digest) {
          var j :| 0 <= j < |recs| && recs[j] == r;
          if j > 0 {
            LessTransitive(c, recs[0].key.value.digest, r.key.value.digest);
          }
        }
        AfterAll(recs, c);
      } else {
        AfterSuffix(tail, c);
        AfterShorter(tail, c);
      }
    }
  }

  /** A record carries one record of a partition only: they are told apart by their digests. */
  lemma RecordsDistinct(recs: seq<GoRecord>, x: nat, y: nat, r: Record)
    requires Ascending(recs) && x < |recs| && y < |recs|
    requires RecordCarried(recs[x], r) && RecordCarried(recs[y], r)
    ensures x == y
  {
    DigestsDistinct(recs, x, y);
  }

  lemma DigestsDistinct(recs: seq<GoRecord>, x: nat, y: nat)
    requires Ascending(recs) && x < |recs| && y < |recs|
    ensures recs[x].key.Some? && recs[y].key.Some?
    ensures recs[x].key.value.digest == recs[y].key.value.digest ==> x == y
  {
    assert recs[x] in recs && recs[y] in recs;
    LessIrreflexive(recs[x].key.value.digest);
  }

  // ----- The contract can be met -----

  function RowsFor(recs: seq<GoRecord>): seq<Result> {
    seq(|recs|, i requires 0 <= i < |recs| => Row(Some(recs[i]), None))
  }

  lemma RowsSnoc(results: seq<Result>, last: Result, p: nat)
    ensures RowsOf(results + [last], p)
         == RowsOf(results, p) + if InPartition(last, p) then [last.record.value] else []
  {
    assert (results + [last])[..|results|] == results;
  }

  lemma {:induction false} RowsAppend(a: seq<Result>, b: seq<Result>, p: nat)
    ensures RowsOf(a + b, p) == RowsOf(a, p) + RowsOf(b, p)
  {
    if b == [] {
      assert a + b == a;
    } else {
      var init, last := b[..|b| - 1], b[|b| - 1];
      RowsAppend(a, init, p);
      assert a + b == (a + init) + [last] && b == init + [last];
      RowsSnoc(a + init, last, p);
      RowsSnoc(init, last, p);
    }
  }

  ghost predicate AllIn(recs: seq<GoRecord>, p: nat) {
    forall r | r in recs :: r.key.Some? && KeyIn(r.key.value, p)
  }

  lemma RowsNext(recs: seq<GoRecord>, rec: GoRecord, p: nat, q: nat)
    requires rec.key.Some? && KeyIn(rec.key.value, p)
    ensures RowsOf(RowsFor(recs + [rec]), q) == RowsOf(RowsFor(recs), q) + if q == p then [rec] else []
  {
    assert RowsFor(recs + [rec]) == RowsFor(recs) + [Row(Some(rec), None)];
    RowsSnoc(RowsFor(recs), Row(Some(rec), None), q);
  }

  lemma {:induction false} RowsOfOnePartition(recs: seq<GoRecord>, p: nat, q: nat)
    requires AllIn(recs, p)
    ensures RowsOf(RowsFor(recs), q) == if q == p then recs else []
  {
    if recs != [] {
      var init, last := recs[..|recs| - 1], recs[|recs| - 1];
      assert recs == init + [last];
      RowsOfOnePartition(init, p, q);
      RowsNext(init, last, p, q);
    }
  }

  lemma {:induction false} AfterWithin(recs: seq<GoRecord>, c: seq<byte>)
    ensures forall r | r in After(recs, c) :: r in recs
  {
    if recs != [] {
      AfterWithin(recs[1..], c);
    }
  }

  /** Answers for the requested partitions from `p` on. */
  lemma {:induction false} AnswerFrom(data: seq<seq<GoRecord>>, gf: GoPartitionFilter, p: nat)
    returns (results: seq<Result>)
    requires Stored(data) && gf.Begin <= p
    ensures Genuine(gf.Begin, gf.Count, results)
    ensures forall q | 0 <= q < PARTITIONS && q < gf.Begin + gf.Count ::
              RowsOf(results, q) == if q < p then [] else After(data[q], CursorFor(gf, q))
    decreases PARTITIONS - p
  {
    results := [];
    if p < PARTITIONS && p < gf.Begin + gf.Count {
      var rest := AnswerFrom(data, gf, p + 1);
      var recs := After(data[p], CursorFor(gf, p));
      AfterWithin(data[p], CursorFor(gf, p));
      assert AllIn(recs, p) by {
        assert forall r | r in recs :: r in data[p];
      }
      results := RowsFor(recs) + rest;
      forall q | 0 <= q < PARTITIONS && q < gf.Begin + gf.Count
        ensures RowsOf(results, q) == if q < p then [] else After(data[q], CursorFor(gf, q))
      {
        RowsAppend(RowsFor(recs), rest, q);
        RowsOfOnePartition(recs, p, q);
      }
      GenuineMore(gf.Begin, gf.Count, recs, rest, p);
    }
  }

  lemma GenuineMore(begin: nat, count: nat, recs: seq<GoRecord>, rest: seq<Result>, p: nat)
    requires Genuine(begin, count, rest) && begin <= p < begin + count && p < PARTITIONS
    requires AllIn(recs, p)
    ensures Genuine(begin, count, RowsFor(recs) + rest)
  {
    var results := RowsFor(recs) + rest;
    forall i | 0 <= i < |results|
      ensures results[i].Failed? ||
              exists q | begin <= q < begin + count && q < PARTITIONS :: InPartition(results[i], q)
    {
      if i < |recs| {
        assert InPartition(results[i], p);
      } else {
        assert results[i] == rest[i - |recs|];
      }
    }
  }

  /** Whatever is stored and whatever filter is sent, some answer meets the server's contract: a session
      can always go on. */
  lemma ServerCanAnswer(data: seq<seq<GoRecord>>, gf: GoPartitionFilter) returns (results: seq<Result>)
    requires Stored(data)
    ensures Serves(data, gf, results)
  {
    results := AnswerFrom(data, gf, gf.Begin);
  }
}
