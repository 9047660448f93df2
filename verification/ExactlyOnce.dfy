/** Pausing and resuming a scan: under an explicit contract for the Aerospike server, what successive
    scans over one filter deliver, however their recordsets are read. */
module ExactlyOnce {
  import opened Basics
  import opened Wire
  import opened Keys
  import opened Recordsets
  import opened Cursors
  import opened ScanServer
  import opened ScanContract
  import G = GoCodec

  // ----- Client sessions -----

  /** Every scan is answered by the server. Recordsets may be read and closed in any order. */
  ghost predicate Served(data: seq<seq<GoRecord>>, s: System, a: Action) {
    a.Open? ==> exists results, n :: Answered(data, s.pf, a.events, results, n)
  }

  ghost predicate ServedRun(h: Hash, data: seq<seq<GoRecord>>, s: System, acts: seq<Action>) {
    acts == [] ||
    (var init := acts[..|acts| - 1];
     ServedRun(h, data, s, init) && Served(data, Run(h, s, init), acts[|acts| - 1]))
  }

  /** The stream of the session carried an answer to its end. */
  ghost predicate Whole(data: seq<seq<GoRecord>>, ss: Session) {
    exists results :: Answered(data, ss.asked, ss.events, results, |results|)
  }

  predicate Drained(ss: Session) {
    ss.consumed == |ss.events|
  }

  /** The records delivered from partition `p`, in order of delivery. */
  function DeliveredFrom(log: seq<Taken>, p: nat): seq<Record> {
    if log == [] then [] else
    var init := DeliveredFrom(log[..|log| - 1], p);
    if log[|log| - 1].pid == p then init + [log[|log| - 1].record] else init
  }

  /** What was delivered of a partition is a beginning of what is stored there: nothing twice, nothing
      skipped, nothing out of order. */
  ghost predicate InOrder(recs: seq<GoRecord>, log: seq<Taken>, p: nat) {
    Matches(DeliveredFrom(log, p), recs, 0)
  }

  /** All of the partition has been delivered, each record once and in order. */
  ghost predicate Complete(recs: seq<GoRecord>, log: seq<Taken>, p: nat) {
    InOrder(recs, log, p) && |DeliveredFrom(log, p)| == |recs|
  }

  function DigestOf(r: Record): Option<seq<byte>> {
    if r.key.Some? then r.key.value.digest else None
  }

  /** No record is delivered twice. */
  predicate NoRepeats(records: seq<Record>) {
    forall i, j :: 0 <= i < j < |records| ==> DigestOf(records[i]) != DigestOf(records[j])
  }

  /** From place `since` of the log on, only session `i` delivered records of partition `p`. */
  predicate Alone(log: seq<Taken>, since: nat, i: nat, p: nat) {
    forall k | since <= k < |log| && log[k].pid == p :: log[k].who == i
  }

  /** Whenever a session delivered a record of partition `p`, no other session had delivered one since
      that session was opened. */
  ghost predicate Undisturbed(s: System, p: nat) {
    forall k | 0 <= k < |s.log| && s.log[k].pid == p ::
      var who := s.log[k].who;
      who < |s.sessions| && Alone(s.log[..k], s.sessions[who].since, who, p)
  }

  ghost predicate Among(rec: GoRecord, rows: seq<Record>) {
    exists r | r in rows :: RecordCarried(rec, r)
  }

  /** The first `n` records of a partition have been delivered. */
  ghost predicate Covers(recs: seq<GoRecord>, log: seq<Taken>, p: nat, n: nat) {
    n <= |recs| && forall y | 0 <= y < n :: Among(recs[y], DeliveredFrom(log, p))
  }

  /** The record is stored, and all before it have been delivered. */
  ghost predicate Reached(recs: seq<GoRecord>, log: seq<Taken>, p: nat, r: Record) {
    exists x | 0 <= x < |recs| :: RecordCarried(recs[x], r) && Covers(recs, log, p, x)
  }

  /** Every record delivered from `p` is stored there, and all before it were delivered earlier. */
  ghost predicate Gapless(recs: seq<GoRecord>, log: seq<Taken>, p: nat) {
    forall k | 0 <= k < |log| && log[k].pid == p :: Reached(recs, log[..k], p, log[k].record)
  }

  // ----- What a stream carries -----

  /** The records of partition `p` among the events, in order. */
  function RowsIn(h: Hash, events: seq<Event>, p: nat): seq<Record> {
    if events == [] then [] else
    var init, item := RowsIn(h, events[..|events| - 1], p), ItemOf(h, events[|events| - 1]);
    if item.Keyed? && item.pid == p then init + [item.record] else init
  }

  /** An error, or a row of a requested partition that carries the digest of its key. */
  predicate Expected(h: Hash, count: nat, e: Event) {
    var item := ItemOf(h, e);
    item.Raise? ||
    (&& item.Keyed? && item.pid < count
     && item.digest.Some? && item.record.key.Some? && item.record.key.value.digest == item.digest)
  }

  /** What the Rust client makes of a message that carries a result. */
  lemma ItemCarried(h: Hash, res: Result, w: StreamResponse)
    requires Carried(res, w)
    ensures var item := ItemOf(h, Message(w));
      && (res.Failed? ==> item.Raise?)
      && (item.Keyed? ==> InPartition(res, item.pid))
      && forall p: nat | InPartition(res, p) ::
           item == Keyed(p, Some(res.record.value.key.value.digest), res.bval, w.record.value)
  {
    if res.Row? && res.record.Some? && res.record.value.key.Some? {
      KeyBooked(h, res.record.value.key.value, w.record.value.key.value);
    }
  }

  /** The rows of messages that carry results carry the rows of these results. */
  lemma {:induction false} RowsInSent(h: Hash, results: seq<Result>, events: seq<Event>, n: nat, p: nat)
    requires Sent(results, events, n)
    ensures Matches(RowsIn(h, events[..n], p), RowsOf(results[..n], p), 0)
    ensures |RowsIn(h, events[..n], p)| == |RowsOf(results[..n], p)|
  {
    if n > 0 {
      RowsInSent(h, results, events, n - 1, p);
      RowsInMatch(h, results[..n - 1], events[..n - 1], results[n - 1], events[n - 1], p);
      assert events[..n] == events[..n - 1] + [events[n - 1]] && results[..n] == results[..n - 1] + [results[n - 1]];
    }
  }

  lemma RowsInMatch(h: Hash, results: seq<Result>, events: seq<Event>, res: Result, e: Event, p: nat)
    requires Matches(RowsIn(h, events, p), RowsOf(results, p), 0)
    requires |RowsIn(h, events, p)| == |RowsOf(results, p)|
    requires e.Message? && Carried(res, e.response)
    ensures Matches(RowsIn(h, events + [e], p), RowsOf(results + [res], p), 0)
    ensures |RowsIn(h, events + [e], p)| == |RowsOf(results + [res], p)|
  {
    ItemCarried(h, res, e.response);
    RowsInSnoc(h, events, e, p);
    RowsSnoc(results, res, p);
  }

  lemma RowsInSnoc(h: Hash, events: seq<Event>, e: Event, p: nat)
    ensures var item := ItemOf(h, e);
      RowsIn(h, events + [e], p)
      == RowsIn(h, events, p) + if item.Keyed? && item.pid == p then [item.record] else []
  {
    assert (events + [e])[..|events|] == events;
  }

  lemma {:induction false} RowsOfPrefix(results: seq<Result>, n: nat, p: nat)
    requires n <= |results|
    ensures RowsOf(results[..n], p) <= RowsOf(results, p)
  {
    if n == |results| {
      assert results[..n] == results;
    } else {
      RowsOfPrefix(results[..|results| - 1], n, p);
      assert results[..|results| - 1][..n] == results[..n];
    }
  }

  lemma {:induction false} RowsInPrefix(h: Hash, events: seq<Event>, n: nat, p: nat)
    requires n <= |events|
    ensures RowsIn(h, events[..n], p) <= RowsIn(h, events, p)
  {
    if n == |events| {
      assert events[..n] == events;
    } else {
      RowsInPrefix(h, events[..|events| - 1], n, p);
      assert events[..|events| - 1][..n] == events[..n];
    }
  }

  lemma {:induction false} NoRowsInTrouble(h: Hash, events: seq<Event>, n: nat, p: nat)
    requires n <= |events| && forall k | n <= k < |events| :: Trouble(events[k])
    ensures RowsIn(h, events, p) == RowsIn(h, events[..n], p)
  {
    if n == |events| {
      assert events[..n] == events;
    } else {
      NoRowsInTrouble(h, events[..|events| - 1], n, p);
      assert events[..|events| - 1][..n] == events[..n];
    }
  }

  /** An answer that may have been cut carries a beginning of what lies after the cursor, and all of it
      if it was not. */
  lemma AnswerRows(h: Hash, data: seq<seq<GoRecord>>, pf: PartitionFilter, events: seq<Event>,
                   results: seq<Result>, n: nat, p: nat)
    requires Answered(data, pf, events, results, n)
    requires pf.begin <= p < pf.begin + pf.count && p < |data|
    ensures var recs := After(data[p], CursorFor(ToPartitionFilter(pf), p));
      && Matches(RowsIn(h, events, p), recs, 0)
      && (n == |results| ==> |RowsIn(h, events, p)| == |recs|)
  {
    NoRowsInTrouble(h, events, n, p);
    RowsInSent(h, results, events, n, p);
    RowsOfPrefix(results, n, p);
    assert n == |results| ==> results[..n] == results;
  }

  lemma AnswerExpected(h: Hash, data: seq<seq<GoRecord>>, pf: PartitionFilter, events: seq<Event>,
                       results: seq<Result>, n: nat)
    requires Answered(data, pf, events, results, n) && pf.begin == 0
    ensures forall e | e in events :: Expected(h, pf.count, e)
  {
    forall k | 0 <= k < |events| ensures Expected(h, pf.count, events[k]) {
      if k < n {
        ItemCarried(h, results[k], events[k].response);
      } else {
        assert Trouble(events[k]);
      }
    }
  }

  // ----- The cursor a scan sends -----

  /** The filter `pf` was sent when `log` had been delivered. */
  ghost predicate Reads(pf: PartitionFilter, log: seq<Taken>) {
    if pf.partitions == [] then log == [] else TableMatches(pf, log)
  }

  lemma CursorAt(pf: PartitionFilter, log: seq<Taken>, p: nat)
    requires TableMatches(pf, log) && p < PARTITIONS
    ensures CursorFor(ToPartitionFilter(pf), p) == LastDigest(log, pf.begin + p)
  {
    var ps := ToPartitionFilter(pf).Partitions;
    assert ps[p].Some? && ps[p].value.Id == p;
  }

  lemma CursorReads(pf: PartitionFilter, log: seq<Taken>, p: nat)
    requires Reads(pf, log) && pf.begin == 0 && p < PARTITIONS
    ensures CursorFor(ToPartitionFilter(pf), p) == LastDigest(log, p)
  {
    if pf.partitions != [] {
      CursorAt(pf, log, p);
    }
  }

  /** The server finds, under each partition's id, the digest and the bval of the last record delivered
      from it; a missing bval reads as 0. */
  lemma CursorIsLastDigest(h: Hash, s: System, p: nat)
    requires Inv(h, s) && s.pf.begin == 0 && p < PARTITIONS
    ensures CursorFor(ToPartitionFilter(s.pf), p) == LastDigest(s.log, p)
    ensures s.sessions != [] ==>
              var ps, bval := ToPartitionFilter(s.pf).Partitions, LastBval(s.log, p);
              |ps| == PARTITIONS && ps[p].Some? && ps[p].value.Id == p
              && ps[p].value.BVal == if bval.Some? then bval.value else 0
  {
    CursorReads(s.pf, s.log, p);
  }

  // ----- What has been delivered -----

  /** Every log entry carries the digest of its record's key. */
  ghost predicate LogCarriesDigests(log: seq<Taken>) {
    forall t | t in log ::
      t.digest.Some? && t.record.key.Some? && t.record.key.value.digest == t.digest
  }

  lemma {:induction false} DeliveredGrows(log: seq<Taken>, n: nat, p: nat)
    requires n <= |log|
    ensures DeliveredFrom(log[..n], p) <= DeliveredFrom(log, p)
  {
    if n == |log| {
      assert log[..n] == log;
    } else {
      DeliveredGrows(log[..|log| - 1], n, p);
      assert log[..|log| - 1][..n] == log[..n];
    }
  }

  lemma GaplessPrefix(recs: seq<GoRecord>, log: seq<Taken>, n: nat, p: nat)
    requires Gapless(recs, log, p) && n <= |log|
    ensures Gapless(recs, log[..n], p)
  {
    forall k | 0 <= k < n && log[..n][k].pid == p ensures Reached(recs, log[..n][..k], p, log[..n][k].record) {
      assert log[..n][..k] == log[..k] && log[..n][k] == log[k];
    }
  }

  lemma {:induction false} LastDigestIs(log: seq<Taken>, p: nat)
    requires LogCarriesDigests(log)
    ensures var d := DeliveredFrom(log, p);
      if d == [] then LastDigest(log, p) == []
      else d[|d| - 1].key.Some? && d[|d| - 1].key.value.digest == Some(LastDigest(log, p))
  {
    if log != [] {
      LastDigestIs(log[..|log| - 1], p);
      assert log[|log| - 1] in log;
    }
  }

  /** The rank of the cursor is the number of records delivered, as long as these are in order. */
  lemma InOrderRank(recs: seq<GoRecord>, log: seq<Taken>, p: nat)
    requires Ascending(recs) && LogCarriesDigests(log) && InOrder(recs, log, p)
    ensures Rank(recs, LastDigest(log, p)) == |DeliveredFrom(log, p)|
  {
    var d := DeliveredFrom(log, p);
    LastDigestIs(log, p);
    if d == [] {
      AfterNothing(recs);
    } else {
      var i := |d| - 1;
      assert RecordCarried(recs[i], d[i]);
      AfterMember(recs, i);
    }
  }

  /** All records up to the cursor have been delivered, whatever the order was. */
  lemma {:induction false} RankCovered(recs: seq<GoRecord>, log: seq<Taken>, p: nat)
    requires Ascending(recs) && LogCarriesDigests(log) && Gapless(recs, log, p)
    ensures Covers(recs, log, p, Rank(recs, LastDigest(log, p)))
  {
    if log == [] {
      AfterNothing(recs);
    } else {
      var init, last := log[..|log| - 1], log[|log| - 1];
      assert last in log && forall t | t in init :: t in log;
      if last.pid == p {
        assert Reached(recs, init, p, last.record);
        var x :| 0 <= x < |recs| && RecordCarried(recs[x], last.record) && Covers(recs, init, p, x);
        assert LastDigest(log, p) == recs[x].key.value.digest;
        AfterMember(recs, x);
        CoversLast(recs, log, p, x);
      } else {
        GaplessPrefix(recs, log, |init|, p);
        RankCovered(recs, init, p);
      }
    }
  }

  lemma CoversLast(recs: seq<GoRecord>, log: seq<Taken>, p: nat, x: nat)
    requires log != [] && log[|log| - 1].pid == p && x < |recs| && RecordCarried(recs[x], log[|log| - 1].record)
    requires Covers(recs, log[..|log| - 1], p, x)
    ensures Covers(recs, log, p, x + 1)
  {
    var init, last := DeliveredFrom(log[..|log| - 1], p), log[|log| - 1].record;
    assert DeliveredFrom(log, p) == init + [last];
    forall y | 0 <= y < x + 1 ensures Among(recs[y], init + [last]) {
      if y == x {
        assert last in init + [last];
      } else {
        AmongMore(recs[y], init, init + [last]);
      }
    }
  }

  lemma AmongMore(rec: GoRecord, rows: seq<Record>, more: seq<Record>)
    requires Among(rec, rows) && forall r | r in rows :: r in more
    ensures Among(rec, more)
  {
  }

  // ----- What one session has delivered -----

  lemma {:induction false} BySession(h: Hash, who: nat, events: seq<Event>, p: nat)
    ensures DeliveredFrom(Delivered(h, who, 0, events), p) == RowsIn(h, events, p)
  {
    if events != [] {
      var init, item := events[..|events| - 1], ItemOf(h, events[|events| - 1]);
      BySession(h, who, init, p);
      if item.Keyed? {
        var d := Delivered(h, who, 0, init);
        assert (d + [TakenFrom(who, item)])[..|d|] == d;
      }
    }
  }

  lemma {:induction false} TakenByWithin(log: seq<Taken>, i: nat, p: nat)
    ensures forall r | r in DeliveredFrom(TakenBy(log, i), p) :: r in DeliveredFrom(log, p)
  {
    if log != [] {
      var init := log[..|log| - 1];
      TakenByWithin(init, i, p);
      TakenBySnoc(init, log[|log| - 1], i, p);
      assert log == init + [log[|log| - 1]];
    }
  }

  lemma TakenBySnoc(log: seq<Taken>, t: Taken, i: nat, p: nat)
    ensures DeliveredFrom(TakenBy(log + [t], i), p)
         == DeliveredFrom(TakenBy(log, i), p) + if t.who == i && t.pid == p then [t.record] else []
    ensures DeliveredFrom(log + [t], p) == DeliveredFrom(log, p) + if t.pid == p then [t.record] else []
  {
    assert (log + [t])[..|log|] == log;
    var own := TakenBy(log, i);
    assert (own + [t])[..|own|] == own;
  }

  /** Since its opening at place `since`, a session can only have added to what was delivered, and what it
      added is everything exactly if it was alone. */
  lemma {:induction false} OwnShare(log: seq<Taken>, since: nat, i: nat, p: nat)
    requires since <= |log| && forall k | 0 <= k < since :: log[k].who != i
    ensures |DeliveredFrom(log[..since], p)| + |DeliveredFrom(TakenBy(log, i), p)| <= |DeliveredFrom(log, p)|
    ensures |DeliveredFrom(log[..since], p)| + |DeliveredFrom(TakenBy(log, i), p)| == |DeliveredFrom(log, p)|
            <==> Alone(log, since, i, p)
  {
    if since == |log| {
      assert log[..since] == log;
      NotTaken(log, i);
    } else {
      var init, last := log[..|log| - 1], log[|log| - 1];
      OwnShare(init, since, i, p);
      assert init[..since] == log[..since] && log == init + [last];
      TakenBySnoc(init, last, i, p);
      assert forall k | 0 <= k < |init| :: init[k] == log[k];
    }
  }

  // ----- Every run -----

  predicate Requested(s: System, p: int) {
    0 <= p < s.pf.count && p < PARTITIONS
  }

  /** What had been delivered when session `i` was opened. */
  function Before(s: System, i: nat): seq<Taken>
    requires i < |s.sessions|
  {
    if s.sessions[i].since <= |s.log| then s.log[..s.sessions[i].since] else s.log
  }

  /** How session `i` was opened. */
  ghost predicate Opened(s: System, i: nat)
    requires i < |s.sessions|
  {
    var ss := s.sessions[i];
    && ss.asked.begin == s.pf.begin && ss.asked.count == s.pf.count
    && ss.since <= |s.log|
    && (forall k | 0 <= k < ss.since :: s.log[k].who < i)
    && Reads(ss.asked, Before(s, i))
  }

  /** The rank of the cursor that session `i` sent for partition `p`. */
  function Base(recs: seq<GoRecord>, s: System, i: nat, p: nat): nat
    requires i < |s.sessions|
  {
    Rank(recs, LastDigest(Before(s, i), p))
  }

  /** Session `i` reads nothing but a beginning of what came after the cursors sent when it was opened. */
  ghost predicate Feeds(h: Hash, data: seq<seq<GoRecord>>, s: System, i: nat)
    requires |data| == PARTITIONS && i < |s.sessions|
  {
    var ss := s.sessions[i];
    && (forall e | e in ss.events :: Expected(h, s.pf.count, e))
    && forall p | Requested(s, p) ::
         Matches(RowsIn(h, ss.events, p), After(data[p], LastDigest(Before(s, i), p)), 0)
  }

  /** The table is filled in step with a log of requested records. */
  ghost predicate Booked(h: Hash, s: System) {
    && Inv(h, s) && s.pf.begin == 0 && !s.crashed
    && LogCarriesDigests(s.log) && forall t | t in s.log :: t.pid < s.pf.count
  }

  ghost predicate Tracked(h: Hash, data: seq<seq<GoRecord>>, s: System)
    requires |data| == PARTITIONS
  {
    && Booked(h, s)
    && (forall i | 0 <= i < |s.sessions| :: Opened(s, i) && Feeds(h, data, s, i))
    && forall p | Requested(s, p) :: Gapless(data[p], s.log, p)
  }

  /** What the invariant says of the stream of one session and one partition. */
  ghost predicate Reading(h: Hash, recs: seq<GoRecord>, s: System, i: nat, p: nat)
    requires i < |s.sessions|
  {
    var ss := s.sessions[i];
    && ss.consumed <= |ss.events|
    && TakenBy(s.log, i) == Delivered(h, i, 0, ss.events[..ss.consumed])
    && Matches(RowsIn(h, ss.events, p), After(recs, LastDigest(Before(s, i), p)), 0)
  }

  lemma TrackedReads(h: Hash, data: seq<seq<GoRecord>>, s: System, i: nat, p: nat)
    requires Stored(data) && Tracked(h, data, s) && i < |s.sessions| && Requested(s, p)
    ensures Reading(h, data[p], s, i, p) && s.sessions[i].since <= |s.log|
    ensures forall k | 0 <= k < s.sessions[i].since :: s.log[k].who != i
    ensures Ascending(data[p]) && LogCarriesDigests(s.log) && Gapless(data[p], s.log, p)
  {
    assert Conserved(h, s, i) && Opened(s, i) && Feeds(h, data, s, i);
  }

  /** What session `i` has delivered of partition `p`. */
  function Own(s: System, i: nat, p: nat): seq<Record> {
    DeliveredFrom(TakenBy(s.log, i), p)
  }

  lemma OwnRead(h: Hash, recs: seq<GoRecord>, s: System, i: nat, p: nat)
    requires i < |s.sessions| && Reading(h, recs, s, i, p)
    ensures Own(s, i, p) == RowsIn(h, s.sessions[i].events[..s.sessions[i].consumed], p)
  {
    BySession(h, i, s.sessions[i].events[..s.sessions[i].consumed], p);
  }

  /** What session `i` has delivered of a partition are the records that follow the cursor sent when it
      was opened. */
  lemma OwnRows(h: Hash, recs: seq<GoRecord>, s: System, i: nat, p: nat)
    requires Ascending(recs) && i < |s.sessions| && Reading(h, recs, s, i, p)
    ensures Matches(Own(s, i, p), recs, Base(recs, s, i, p))
  {
    OwnRead(h, recs, s, i, p);
    ReadRows(h, recs, s.sessions[i].events, s.sessions[i].consumed, LastDigest(Before(s, i), p), p);
  }

  lemma ReadRows(h: Hash, recs: seq<GoRecord>, events: seq<Event>, n: nat, c: seq<byte>, p: nat)
    requires Ascending(recs) && n <= |events| && Matches(RowsIn(h, events, p), After(recs, c), 0)
    ensures Matches(RowsIn(h, events[..n], p), recs, Rank(recs, c))
  {
    RowsInPrefix(h, events, n, p);
    AfterSuffix(recs, c);
    PrefixOfSuffix(recs, Rank(recs, c), RowsIn(h, events, p), RowsIn(h, events[..n], p));
  }

  lemma PrefixOfSuffix(recs: seq<GoRecord>, r: nat, all: seq<Record>, rows: seq<Record>)
    requires r <= |recs| && Matches(all, recs[r..], 0) && rows <= all
    ensures Matches(rows, recs, r)
  {
    forall k | 0 <= k < |rows| ensures RecordCarried(recs[r + k], rows[k]) {
      assert RecordCarried(recs[r..][0 + k], all[k]);
    }
  }

  /** Session `i` is about to read a row of partition `p`. */
  ghost predicate NextIsRow(h: Hash, s: System, i: nat, p: nat) {
    && i < |s.sessions| && s.sessions[i].stream.Some? && s.sessions[i].stream.value != []
    && NextItem(h, s, i).Keyed? && NextItem(h, s, i).pid == p
  }

  function NextItem(h: Hash, s: System, i: nat): Item
    requires i < |s.sessions| && s.sessions[i].stream.Some? && s.sessions[i].stream.value != []
  {
    ItemOf(h, s.sessions[i].stream.value[0])
  }

  lemma NextEvent(h: Hash, data: seq<seq<GoRecord>>, s: System, i: nat)
    requires |data| == PARTITIONS && Tracked(h, data, s)
    requires i < |s.sessions| && s.sessions[i].stream.Some? && s.sessions[i].stream.value != []
    ensures var ss := s.sessions[i];
      ss.consumed < |ss.events| && ss.events[ss.consumed] == ss.stream.value[0]
    ensures Expected(h, s.pf.count, s.sessions[i].stream.value[0])
  {
    assert Conserved(h, s, i) && Feeds(h, data, s, i);
    assert s.sessions[i].stream.value[0] in s.sessions[i].events;
  }

  /** The record that session `i` delivers next is the one at its own place in the partition. */
  lemma NextRow(h: Hash, recs: seq<GoRecord>, s: System, i: nat, p: nat)
    requires Ascending(recs) && i < |s.sessions| && Reading(h, recs, s, i, p) && NextIsRow(h, s, i, p)
    requires var ss := s.sessions[i];
      ss.consumed < |ss.events| && ss.events[ss.consumed] == ss.stream.value[0]
    ensures var x := Base(recs, s, i, p) + |Own(s, i, p)|;
      x < |recs| && RecordCarried(recs[x], NextItem(h, s, i).record)
  {
    OwnRead(h, recs, s, i, p);
    ReadRows(h, recs, s.sessions[i].events, s.sessions[i].consumed + 1, LastDigest(Before(s, i), p), p);
    LastRow(h, recs, s.sessions[i].events, s.sessions[i].consumed, Base(recs, s, i, p), p);
  }

  lemma LastRow(h: Hash, recs: seq<GoRecord>, events: seq<Event>, n: nat, r: nat, p: nat)
    requires n < |events| && ItemOf(h, events[n]).Keyed? && ItemOf(h, events[n]).pid == p
    requires Matches(RowsIn(h, events[..n + 1], p), recs, r)
    ensures var x := r + |RowsIn(h, events[..n], p)|;
      x < |recs| && RecordCarried(recs[x], ItemOf(h, events[n]).record)
  {
    RowsInNext(h, events, n, p);
    LastMatches(RowsIn(h, events[..n], p), ItemOf(h, events[n]).record, recs, r);
  }

  lemma RowsInNext(h: Hash, events: seq<Event>, n: nat, p: nat)
    requires n < |events| && ItemOf(h, events[n]).Keyed? && ItemOf(h, events[n]).pid == p
    ensures RowsIn(h, events[..n + 1], p) == RowsIn(h, events[..n], p) + [ItemOf(h, events[n]).record]
  {
    assert events[..n + 1][..n] == events[..n];
  }

  lemma LastMatches(rows: seq<Record>, row: Record, recs: seq<GoRecord>, r: nat)
    requires Matches(rows + [row], recs, r)
    ensures r + |rows| < |recs| && RecordCarried(recs[r + |rows|], row)
  {
    assert RecordCarried(recs[r + |rows|], (rows + [row])[|rows|]);
  }

  /** The log after fetching a row. */
  lemma FetchLogs(h: Hash, data: seq<seq<GoRecord>>, s: System, i: nat, p: nat)
    requires |data| == PARTITIONS && Tracked(h, data, s) && NextIsRow(h, s, i, p)
    ensures Requested(s, p) && !Act(h, s, Fetch(i)).crashed
    ensures Act(h, s, Fetch(i)).log == s.log + [TakenFrom(i, NextItem(h, s, i))]
    ensures var item := NextItem(h, s, i);
      item.digest.Some? && item.record.key.Some? && item.record.key.value.digest == item.digest
  {
    NextEvent(h, data, s, i);
  }

  /** Everything before the place of session `i` has been delivered, by it or before it was opened. */
  lemma OwnPlaceCovered(h: Hash, recs: seq<GoRecord>, s: System, i: nat, p: nat)
    requires Ascending(recs) && i < |s.sessions| && Reading(h, recs, s, i, p) && s.sessions[i].since <= |s.log|
    requires LogCarriesDigests(s.log) && Gapless(recs, s.log, p)
    ensures Covers(recs, s.log, p, Base(recs, s, i, p) + |Own(s, i, p)|)
  {
    OwnRows(h, recs, s, i, p);
    BaseCovered(recs, s.log, s.sessions[i].since, p);
    TakenByWithin(s.log, i, p);
    CoversMore(recs, s.log, p, Base(recs, s, i, p), Own(s, i, p));
  }

  lemma BaseCovered(recs: seq<GoRecord>, log: seq<Taken>, since: nat, p: nat)
    requires Ascending(recs) && LogCarriesDigests(log) && Gapless(recs, log, p) && since <= |log|
    ensures Covers(recs, log, p, Rank(recs, LastDigest(log[..since], p)))
  {
    GaplessPrefix(recs, log, since, p);
    assert forall t | t in log[..since] :: t in log;
    RankCovered(recs, log[..since], p);
    DeliveredGrows(log, since, p);
    CoversGrows(recs, log[..since], log, p, Rank(recs, LastDigest(log[..since], p)));
  }

  lemma CoversGrows(recs: seq<GoRecord>, log: seq<Taken>, log': seq<Taken>, p: nat, n: nat)
    requires Covers(recs, log, p, n) && DeliveredFrom(log, p) <= DeliveredFrom(log', p)
    ensures Covers(recs, log', p, n)
  {
    forall y | 0 <= y < n ensures Among(recs[y], DeliveredFrom(log', p)) {
      AmongMore(recs[y], DeliveredFrom(log, p), DeliveredFrom(log', p));
    }
  }

  lemma CoversMore(recs: seq<GoRecord>, log: seq<Taken>, p: nat, r: nat, own: seq<Record>)
    requires Covers(recs, log, p, r) && Matches(own, recs, r)
    requires forall x | x in own :: x in DeliveredFrom(log, p)
    ensures Covers(recs, log, p, r + |own|)
  {
    forall y | r <= y < r + |own| ensures Among(recs[y], DeliveredFrom(log, p)) {
      assert RecordCarried(recs[r + (y - r)], own[y - r]) && own[y - r] in own;
    }
  }

  lemma RowKeepsGapless(h: Hash, data: seq<seq<GoRecord>>, s: System, i: nat, p: nat)
    requires Stored(data) && Tracked(h, data, s) && NextIsRow(h, s, i, p) && Requested(s, p)
    ensures Gapless(data[p], s.log + [TakenFrom(i, NextItem(h, s, i))], p)
  {
    TrackedReads(h, data, s, i, p);
    NextEvent(h, data, s, i);
    NextKeepsGapless(h, data[p], s, i, p);
  }

  lemma NextKeepsGapless(h: Hash, recs: seq<GoRecord>, s: System, i: nat, p: nat)
    requires Ascending(recs) && i < |s.sessions| && Reading(h, recs, s, i, p) && s.sessions[i].since <= |s.log|
    requires LogCarriesDigests(s.log) && Gapless(recs, s.log, p) && NextIsRow(h, s, i, p)
    requires var ss := s.sessions[i];
      ss.consumed < |ss.events| && ss.events[ss.consumed] == ss.stream.value[0]
    ensures Gapless(recs, s.log + [TakenFrom(i, NextItem(h, s, i))], p)
  {
    OwnPlaceCovered(h, recs, s, i, p);
    NextRow(h, recs, s, i, p);
    AppendKeepsGapless(recs, s.log, TakenFrom(i, NextItem(h, s, i)), p);
  }

  lemma AppendKeepsGapless(recs: seq<GoRecord>, log: seq<Taken>, t: Taken, p: nat)
    requires Gapless(recs, log, p) && (t.pid == p ==> Reached(recs, log, p, t.record))
    ensures Gapless(recs, log + [t], p)
  {
    var log' := log + [t];
    forall k | 0 <= k < |log'| && log'[k].pid == p ensures Reached(recs, log'[..k], p, log'[k].record) {
      assert log'[..k] == log[..k] && (k < |log| ==> log'[k] == log[k]);
      assert log[..|log|] == log;
    }
  }

  predicate SameStream(ss: Session, ss': Session) {
    ss'.asked == ss.asked && ss'.since == ss.since && ss'.events == ss.events
  }

  /** A session is opened once and for all, and reads the same stream from then on. */
  lemma SessionKept(h: Hash, data: seq<seq<GoRecord>>, s: System, s': System, j: nat)
    requires |data| == PARTITIONS && j < |s.sessions| && j < |s'.sessions| && Opened(s, j) && Feeds(h, data, s, j)
    requires SameStream(s.sessions[j], s'.sessions[j])
    requires s'.pf.begin == s.pf.begin && s'.pf.count == s.pf.count && s.log <= s'.log
    ensures Opened(s', j) && Feeds(h, data, s', j)
  {
    assert Before(s', j) == Before(s, j);
    assert forall p | Requested(s', p) :: Requested(s, p);
  }

  lemma OpenKeepsTracked(h: Hash, data: seq<seq<GoRecord>>, s: System, events: seq<Event>,
                         results: seq<Result>, n: nat)
    requires Stored(data) && Tracked(h, data, s) && Answered(data, s.pf, events, results, n)
    ensures Tracked(h, data, Act(h, s, Open(events)))
  {
    var s', i := Act(h, s, Open(events)), |s.sessions|;
    ActKeepsInv(h, s, Open(events));
    AnswerExpected(h, data, s.pf, events, results, n);
    assert s'.log[..|s.log|] == s.log;
    forall p | Requested(s', p)
      ensures Matches(RowsIn(h, events, p), After(data[p], LastDigest(s.log, p)), 0)
    {
      CursorReads(s.pf, s.log, p);
      AnswerRows(h, data, s.pf, events, results, n, p);
    }
    assert Opened(s', i) && Feeds(h, data, s', i);
    forall j | 0 <= j < |s.sessions| ensures Opened(s', j) && Feeds(h, data, s', j) {
      SessionKept(h, data, s, s', j);
    }
  }

  lemma QuietKeepsTracked(h: Hash, data: seq<seq<GoRecord>>, s: System, s': System)
    requires |data| == PARTITIONS && Tracked(h, data, s) && Inv(h, s')
    requires s'.pf == s.pf && s'.log == s.log && !s'.crashed && |s'.sessions| == |s.sessions|
    requires forall j | 0 <= j < |s.sessions| ::
               SameStream(s.sessions[j], s'.sessions[j])
    ensures Tracked(h, data, s')
  {
    forall j | 0 <= j < |s.sessions| ensures Opened(s', j) && Feeds(h, data, s', j) {
      SessionKept(h, data, s, s', j);
    }
    assert forall p | Requested(s', p) :: Requested(s, p);
  }

  lemma RowKeepsTracked(h: Hash, data: seq<seq<GoRecord>>, s: System, i: nat, p: nat)
    requires Stored(data) && Tracked(h, data, s) && NextIsRow(h, s, i, p)
    ensures Tracked(h, data, Act(h, s, Fetch(i)))
  {
    RowKeepsBooked(h, data, s, i, p);
    RowKeepsSessions(h, data, s, i, p);
    RowKeepsAllGapless(h, data, s, i, p);
  }

  lemma RowKeepsBooked(h: Hash, data: seq<seq<GoRecord>>, s: System, i: nat, p: nat)
    requires |data| == PARTITIONS && Tracked(h, data, s) && NextIsRow(h, s, i, p)
    ensures Booked(h, Act(h, s, Fetch(i))) && Act(h, s, Fetch(i)).pf.count == s.pf.count
    ensures Act(h, s, Fetch(i)).log == s.log + [TakenFrom(i, NextItem(h, s, i))]
  {
    var s', t := Act(h, s, Fetch(i)), TakenFrom(i, NextItem(h, s, i));
    ActKeepsInv(h, s, Fetch(i));
    FetchLogs(h, data, s, i, p);
    assert forall u | u in s'.log :: u in s.log || u == t;
  }

  lemma RowKeepsSessions(h: Hash, data: seq<seq<GoRecord>>, s: System, i: nat, p: nat)
    requires |data| == PARTITIONS && Tracked(h, data, s) && NextIsRow(h, s, i, p)
    ensures var s' := Act(h, s, Fetch(i));
      |s'.sessions| == |s.sessions| && forall j | 0 <= j < |s.sessions| :: Opened(s', j) && Feeds(h, data, s', j)
  {
    FetchLogs(h, data, s, i, p);
    forall j | 0 <= j < |s.sessions|
      ensures Opened(Act(h, s, Fetch(i)), j) && Feeds(h, data, Act(h, s, Fetch(i)), j)
    {
      SessionKept(h, data, s, Act(h, s, Fetch(i)), j);
    }
  }

  lemma RowKeepsAllGapless(h: Hash, data: seq<seq<GoRecord>>, s: System, i: nat, p: nat)
    requires Stored(data) && Tracked(h, data, s) && NextIsRow(h, s, i, p)
    ensures forall q | Requested(s, q) :: Gapless(data[q], s.log + [TakenFrom(i, NextItem(h, s, i))], q)
  {
    forall q | Requested(s, q) ensures Gapless(data[q], s.log + [TakenFrom(i, NextItem(h, s, i))], q) {
      if q == p {
        RowKeepsGapless(h, data, s, i, p);
      } else {
        AppendKeepsGapless(data[q], s.log, TakenFrom(i, NextItem(h, s, i)), q);
      }
    }
  }

  /** Reading an event that is no row changes nothing but the session read. */
  lemma FetchQuiet(h: Hash, data: seq<seq<GoRecord>>, s: System, i: nat)
    requires |data| == PARTITIONS && Tracked(h, data, s) && forall p: nat :: !NextIsRow(h, s, i, p)
    ensures var s' := Act(h, s, Fetch(i));
      && s'.pf == s.pf && s'.log == s.log && !s'.crashed && |s'.sessions| == |s.sessions|
      && forall j | 0 <= j < |s.sessions| ::
           SameStream(s.sessions[j], s'.sessions[j])
  {
    if i < |s.sessions| && s.sessions[i].stream.Some? && s.sessions[i].stream.value != [] {
      NextEvent(h, data, s, i);
      assert NextItem(h, s, i).Keyed? ==> NextIsRow(h, s, i, NextItem(h, s, i).pid);
    }
  }

  lemma ActKeepsTracked(h: Hash, data: seq<seq<GoRecord>>, s: System, a: Action)
    requires Stored(data) && Tracked(h, data, s) && Served(data, s, a)
    ensures Tracked(h, data, Act(h, s, a)) && Act(h, s, a).pf.count == s.pf.count
  {
    match a
    case Open(events) =>
      var results, n :| Answered(data, s.pf, events, results, n);
      OpenKeepsTracked(h, data, s, events, results, n);
    case Close(i) =>
      ActKeepsInv(h, s, a);
      QuietKeepsTracked(h, data, s, Act(h, s, a));
    case Fetch(i) =>
      if p: nat :| NextIsRow(h, s, i, p) {
        RowKeepsTracked(h, data, s, i, p);
      } else {
        ActKeepsInv(h, s, a);
        FetchQuiet(h, data, s, i);
        QuietKeepsTracked(h, data, s, Act(h, s, a));
      }
  }

  lemma {:induction false} RunTracked(h: Hash, data: seq<seq<GoRecord>>, count: nat, acts: seq<Action>)
    requires Stored(data) && ServedRun(h, data, Start(0, count), acts)
    ensures Tracked(h, data, Run(h, Start(0, count), acts)) && Run(h, Start(0, count), acts).pf.count == count
  {
    if acts != [] {
      RunTracked(h, data, count, acts[..|acts| - 1]);
      ActKeepsTracked(h, data, Run(h, Start(0, count), acts[..|acts| - 1]), acts[|acts| - 1]);
    }
  }

  /** As long as a partition was delivered in order, what the server sends for the next scan are exactly the
      records behind those delivered. */
  lemma ResumesBehind(h: Hash, data: seq<seq<GoRecord>>, s: System, p: nat)
    requires Stored(data) && Tracked(h, data, s) && Requested(s, p) && InOrder(data[p], s.log, p)
    ensures After(data[p], CursorFor(ToPartitionFilter(s.pf), p)) == data[p][|DeliveredFrom(s.log, p)|..]
  {
    CursorIsLastDigest(h, s, p);
    InOrderRank(data[p], s.log, p);
    AfterSuffix(data[p], LastDigest(s.log, p));
  }

  // ----- Nothing is skipped -----

  lemma DrainedCovers(h: Hash, data: seq<seq<GoRecord>>, s: System, i: nat, p: nat)
    requires Stored(data) && Tracked(h, data, s) && Requested(s, p)
    requires i < |s.sessions| && Whole(data, s.sessions[i]) && Drained(s.sessions[i])
    ensures Covers(data[p], s.log, p, |data[p]|)
  {
    var ss := s.sessions[i];
    assert Opened(s, i);
    var results :| Answered(data, ss.asked, ss.events, results, |results|);
    AnswerRows(h, data, ss.asked, ss.events, results, |results|, p);
    CursorReads(ss.asked, Before(s, i), p);
    TrackedReads(h, data, s, i, p);
    OwnRead(h, data[p], s, i, p);
    OwnPlaceCovered(h, data[p], s, i, p);
    AfterShorter(data[p], LastDigest(Before(s, i), p));
    assert ss.events[..ss.consumed] == ss.events;
  }

  /** However the recordsets of one filter are read, abandoned and opened again, no record is skipped:
      when a record is delivered, all before it in its partition have been delivered, and once any
      recordset that carried a whole answer is drained, every record has been delivered. */
  lemma NothingSkipped(h: Hash, data: seq<seq<GoRecord>>, count: nat, acts: seq<Action>, p: nat)
    requires Stored(data) && ServedRun(h, data, Start(0, count), acts) && p < count && p < PARTITIONS
    ensures var s := Run(h, Start(0, count), acts);
      && !s.crashed && (forall t | t in s.log :: t.pid < count)
      && Gapless(data[p], s.log, p)
      && ((exists i | 0 <= i < |s.sessions| :: Whole(data, s.sessions[i]) && Drained(s.sessions[i]))
          ==> Covers(data[p], s.log, p, |data[p]|))
  {
    var s := Run(h, Start(0, count), acts);
    RunTracked(h, data, count, acts);
    assert Requested(s, p);
    if i: nat :| i < |s.sessions| && Whole(data, s.sessions[i]) && Drained(s.sessions[i]) {
      DrainedCovers(h, data, s, i, p);
    }
  }

  // ----- Nothing is delivered twice -----

  lemma AppendInOrder(recs: seq<GoRecord>, log: seq<Taken>, t: Taken, p: nat, x: nat)
    requires Ascending(recs) && InOrder(recs, log, p)
    requires t.pid == p && x < |recs| && RecordCarried(recs[x], t.record)
    ensures InOrder(recs, log + [t], p) <==> x == |DeliveredFrom(log, p)|
  {
    var d := DeliveredFrom(log, p);
    assert (log + [t])[..|log|] == log;
    assert DeliveredFrom(log + [t], p) == d + [t.record];
    MatchesSnoc(d, t.record, recs, x);
  }

  lemma MatchesSnoc(d: seq<Record>, r: Record, recs: seq<GoRecord>, x: nat)
    requires Ascending(recs) && Matches(d, recs, 0) && x < |recs| && RecordCarried(recs[x], r)
    ensures Matches(d + [r], recs, 0) <==> x == |d|
  {
    if x == |d| {
      assert forall k | 0 <= k < |d| :: (d + [r])[k] == d[k] && RecordCarried(recs[0 + k], d[k]);
    } else if Matches(d + [r], recs, 0) {
      LastMatches(d, r, recs, 0);
      RecordsDistinct(recs, x, |d|, r);
    }
  }

  /** While everything was delivered in order so far, the next row of session `i` keeps it so exactly if
      no other session has delivered from its partition since session `i` was opened. */
  lemma RowInOrderIff(h: Hash, data: seq<seq<GoRecord>>, s: System, i: nat, p: nat)
    requires Stored(data) && Tracked(h, data, s) && NextIsRow(h, s, i, p) && InOrder(data[p], s.log, p)
    requires Requested(s, p)
    ensures InOrder(data[p], Act(h, s, Fetch(i)).log, p) <==> Alone(s.log, s.sessions[i].since, i, p)
  {
    TrackedReads(h, data, s, i, p);
    NextEvent(h, data, s, i);
    FetchLogs(h, data, s, i, p);
    NextInOrderIff(h, data[p], s, i, p);
  }

  lemma NextInOrderIff(h: Hash, recs: seq<GoRecord>, s: System, i: nat, p: nat)
    requires Ascending(recs) && i < |s.sessions| && Reading(h, recs, s, i, p) && NextIsRow(h, s, i, p)
    requires var ss := s.sessions[i];
      ss.consumed < |ss.events| && ss.events[ss.consumed] == ss.stream.value[0]
    requires s.sessions[i].since <= |s.log| && forall k | 0 <= k < s.sessions[i].since :: s.log[k].who != i
    requires LogCarriesDigests(s.log) && InOrder(recs, s.log, p)
    ensures InOrder(recs, s.log + [TakenFrom(i, NextItem(h, s, i))], p)
            <==> Alone(s.log, s.sessions[i].since, i, p)
  {
    NextRow(h, recs, s, i, p);
    PlaceInOrderIff(recs, s, i, p, TakenFrom(i, NextItem(h, s, i)));
  }

  lemma PlaceInOrderIff(recs: seq<GoRecord>, s: System, i: nat, p: nat, t: Taken)
    requires i < |s.sessions| && s.sessions[i].since <= |s.log|
    requires Ascending(recs) && LogCarriesDigests(s.log) && InOrder(recs, s.log, p)
    requires forall k | 0 <= k < s.sessions[i].since :: s.log[k].who != i
    requires var x := Base(recs, s, i, p) + |Own(s, i, p)|;
      t.pid == p && x < |recs| && RecordCarried(recs[x], t.record)
    ensures InOrder(recs, s.log + [t], p) <==> Alone(s.log, s.sessions[i].since, i, p)
  {
    BaseInOrder(recs, s, i, p);
    OwnShare(s.log, s.sessions[i].since, i, p);
    AppendInOrder(recs, s.log, t, p, Base(recs, s, i, p) + |Own(s, i, p)|);
  }

  lemma BaseInOrder(recs: seq<GoRecord>, s: System, i: nat, p: nat)
    requires Ascending(recs) && LogCarriesDigests(s.log) && InOrder(recs, s.log, p)
    requires i < |s.sessions| && s.sessions[i].since <= |s.log|
    ensures Base(recs, s, i, p) == |DeliveredFrom(Before(s, i), p)|
  {
    DeliveredGrows(s.log, s.sessions[i].since, p);
    assert forall t | t in Before(s, i) :: t in s.log;
    InOrderRank(recs, Before(s, i), p);
  }

  lemma RowUndisturbed(s: System, s': System, t: Taken, p: nat)
    requires s'.log == s.log + [t] && t.who < |s.sessions| == |s'.sessions|
    requires forall u | u in s.log :: u.who < |s.sessions|
    requires forall j | 0 <= j < |s.sessions| :: s'.sessions[j].since == s.sessions[j].since
    ensures Undisturbed(s', p)
            <==> Undisturbed(s, p) && (t.pid == p ==> Alone(s.log, s.sessions[t.who].since, t.who, p))
  {
    assert s'.log[..|s.log|] == s.log;
    forall k | 0 <= k < |s.log| ensures s'.log[k] == s.log[k] && s'.log[..k] == s.log[..k] && s.log[k] in s.log {
    }
  }

  lemma QuietUndisturbed(s: System, s': System, p: nat)
    requires s'.log == s.log && |s.sessions| <= |s'.sessions|
    requires forall u | u in s.log :: u.who < |s.sessions|
    requires forall j | 0 <= j < |s.sessions| :: s'.sessions[j].since == s.sessions[j].since
    ensures Undisturbed(s', p) <==> Undisturbed(s, p)
  {
    assert forall k | 0 <= k < |s.log| :: s.log[k] in s.log;
  }

  lemma InOrderShrinks(recs: seq<GoRecord>, log: seq<Taken>, t: Taken, p: nat)
    ensures InOrder(recs, log + [t], p) ==> InOrder(recs, log, p)
    ensures t.pid != p ==> DeliveredFrom(log + [t], p) == DeliveredFrom(log, p)
  {
    TakenBySnoc(log, t, 0, p);
    var d, d' := DeliveredFrom(log, p), DeliveredFrom(log + [t], p);
    assert forall k | 0 <= k < |d| :: d'[k] == d[k];
  }

  /** How a log grows by a delivery, and the sessions with it. */
  ghost predicate Delivers(s: System, s': System, t: Taken) {
    && s'.log == s.log + [t] && t.who < |s.sessions| == |s'.sessions|
    && (forall u | u in s.log :: u.who < |s.sessions|)
    && forall j | 0 <= j < |s.sessions| :: s'.sessions[j].since == s.sessions[j].since
  }

  lemma DeliveryOrderIff(recs: seq<GoRecord>, s: System, s': System, t: Taken, p: nat)
    requires Delivers(s, s', t) && (InOrder(recs, s.log, p) <==> Undisturbed(s, p))
    requires t.pid == p && InOrder(recs, s.log, p) ==>
               (InOrder(recs, s'.log, p) <==> Alone(s.log, s.sessions[t.who].since, t.who, p))
    ensures InOrder(recs, s'.log, p) <==> Undisturbed(s', p)
  {
    InOrderShrinks(recs, s.log, t, p);
    RowUndisturbed(s, s', t, p);
  }

  lemma FetchDelivers(h: Hash, data: seq<seq<GoRecord>>, s: System, i: nat, q: nat)
    requires |data| == PARTITIONS && Tracked(h, data, s) && NextIsRow(h, s, i, q)
    ensures Delivers(s, Act(h, s, Fetch(i)), TakenFrom(i, NextItem(h, s, i)))
  {
    FetchLogs(h, data, s, i, q);
  }

  lemma FetchOrderIff(h: Hash, data: seq<seq<GoRecord>>, s: System, i: nat, q: nat, p: nat)
    requires Stored(data) && Tracked(h, data, s) && Requested(s, p) && NextIsRow(h, s, i, q)
    requires InOrder(data[p], s.log, p) <==> Undisturbed(s, p)
    ensures var s' := Act(h, s, Fetch(i)); InOrder(data[p], s'.log, p) <==> Undisturbed(s', p)
  {
    FetchDelivers(h, data, s, i, q);
    if q == p && InOrder(data[p], s.log, p) {
      RowInOrderIff(h, data, s, i, p);
    }
    DeliveryOrderIff(data[p], s, Act(h, s, Fetch(i)), TakenFrom(i, NextItem(h, s, i)), p);
  }

  /** Any action but the reading of a row delivers nothing. */
  lemma ActQuiet(h: Hash, data: seq<seq<GoRecord>>, s: System, a: Action)
    requires |data| == PARTITIONS && Tracked(h, data, s)
    requires a.Fetch? ==> forall q: nat :: !NextIsRow(h, s, a.who, q)
    ensures var s' := Act(h, s, a);
      && s'.log == s.log && |s.sessions| <= |s'.sessions|
      && (forall u | u in s.log :: u.who < |s.sessions|)
      && forall j | 0 <= j < |s.sessions| :: s'.sessions[j].since == s.sessions[j].since
  {
    if a.Fetch? {
      FetchQuiet(h, data, s, a.who);
    }
  }

  lemma ActOrderIff(h: Hash, data: seq<seq<GoRecord>>, s: System, a: Action, p: nat)
    requires Stored(data) && Tracked(h, data, s) && Requested(s, p)
    requires InOrder(data[p], s.log, p) <==> Undisturbed(s, p)
    ensures var s' := Act(h, s, a); InOrder(data[p], s'.log, p) <==> Undisturbed(s', p)
  {
    if a.Fetch? && exists q: nat :: NextIsRow(h, s, a.who, q) {
      var q: nat :| NextIsRow(h, s, a.who, q);
      FetchOrderIff(h, data, s, a.who, q, p);
    } else {
      ActQuiet(h, data, s, a);
      QuietUndisturbed(s, Act(h, s, a), p);
    }
  }

  lemma {:induction false} InOrderIff(h: Hash, data: seq<seq<GoRecord>>, count: nat, acts: seq<Action>, p: nat)
    requires Stored(data) && ServedRun(h, data, Start(0, count), acts) && p < count && p < PARTITIONS
    ensures var s := Run(h, Start(0, count), acts);
      InOrder(data[p], s.log, p) <==> Undisturbed(s, p)
  {
    if acts != [] {
      var init := acts[..|acts| - 1];
      InOrderIff(h, data, count, init, p);
      RunTracked(h, data, count, init);
      ActOrderIff(h, data, Run(h, Start(0, count), init), acts[|acts| - 1], p);
    }
  }

  lemma InOrderNoRepeats(recs: seq<GoRecord>, d: seq<Record>)
    requires Ascending(recs) && Matches(d, recs, 0)
    ensures NoRepeats(d)
  {
    forall i, j | 0 <= i < j < |d| ensures DigestOf(d[i]) != DigestOf(d[j]) {
      assert RecordCarried(recs[0 + i], d[i]) && RecordCarried(recs[0 + j], d[j]);
      DigestsDistinct(recs, i, j);
    }
  }

  /** Without gaps, the only way to leave the order is to repeat a record. */
  lemma {:induction false} NoRepeatsInOrder(recs: seq<GoRecord>, log: seq<Taken>, p: nat)
    requires Ascending(recs) && Gapless(recs, log, p) && NoRepeats(DeliveredFrom(log, p))
    ensures InOrder(recs, log, p)
  {
    if log != [] {
      var init, last := log[..|log| - 1], log[|log| - 1];
      var d := DeliveredFrom(init, p);
      assert forall i | 0 <= i < |d| :: d[i] == DeliveredFrom(log, p)[i];
      GaplessPrefix(recs, log, |init|, p);
      NoRepeatsInOrder(recs, init, p);
      if last.pid == p {
        assert Reached(recs, init, p, last.record);
        var x :| 0 <= x < |recs| && RecordCarried(recs[x], last.record) && Covers(recs, init, p, x);
        assert DeliveredFrom(log, p) == d + [last.record];
        NextInPlace(recs, d, x, last.record);
        MatchesSnoc(d, last.record, recs, x);
      }
    }
  }

  lemma NextInPlace(recs: seq<GoRecord>, d: seq<Record>, x: nat, r: Record)
    requires Ascending(recs) && Matches(d, recs, 0) && x < |recs| && RecordCarried(recs[x], r)
    requires (forall y | 0 <= y < x :: Among(recs[y], d)) && NoRepeats(d + [r])
    ensures x == |d|
  {
    if x < |d| {
      assert RecordCarried(recs[0 + x], d[x]);
      RepeatedAt(d, x, r);
    } else if |d| < x {
      NotAmong(recs, d, |d|);
    }
  }

  lemma NotAmong(recs: seq<GoRecord>, d: seq<Record>, y: nat)
    requires Ascending(recs) && Matches(d, recs, 0) && |d| <= y < |recs|
    ensures !Among(recs[y], d)
  {
    if Among(recs[y], d) {
      var i :| 0 <= i < |d| && RecordCarried(recs[y], d[i]);
      assert RecordCarried(recs[0 + i], d[i]);
      RecordsDistinct(recs, y, i, d[i]);
    }
  }

  lemma RepeatedAt(d: seq<Record>, x: nat, r: Record)
    requires x < |d| && DigestOf(d[x]) == DigestOf(r)
    ensures !NoRepeats(d + [r])
  {
    assert (d + [r])[x] == d[x] && (d + [r])[|d|] == r;
  }

  lemma CoveredOnce(recs: seq<GoRecord>, log: seq<Taken>, p: nat)
    requires Ascending(recs) && Covers(recs, log, p, |recs|)
    ensures Complete(recs, log, p) <==> InOrder(recs, log, p)
  {
    var d := DeliveredFrom(log, p);
    if InOrder(recs, log, p) && |d| < |recs| {
      NotAmong(recs, d, |d|);
    }
  }

  lemma RepeatsIffOutOfOrder(recs: seq<GoRecord>, log: seq<Taken>, p: nat)
    requires Ascending(recs) && Gapless(recs, log, p)
    ensures NoRepeats(DeliveredFrom(log, p)) <==> InOrder(recs, log, p)
  {
    if InOrder(recs, log, p) {
      InOrderNoRepeats(recs, DeliveredFrom(log, p));
    } else if NoRepeats(DeliveredFrom(log, p)) {
      NoRepeatsInOrder(recs, log, p);
    }
  }

  /** What has been delivered of a partition is a beginning of what is stored there, or equivalently holds no
      record twice, exactly if whenever a recordset delivered a record of it, no other recordset had done so
      since it was opened; and once any recordset that carried a whole answer is drained, every record of the
      partition has been delivered exactly once under that same condition. */
  lemma ExactlyOnce(h: Hash, data: seq<seq<GoRecord>>, count: nat, acts: seq<Action>, p: nat)
    requires Stored(data) && ServedRun(h, data, Start(0, count), acts) && p < count && p < PARTITIONS
    ensures var s := Run(h, Start(0, count), acts);
      && (InOrder(data[p], s.log, p) <==> Undisturbed(s, p))
      && (NoRepeats(DeliveredFrom(s.log, p)) <==> Undisturbed(s, p))
      && ((exists i | 0 <= i < |s.sessions| :: Whole(data, s.sessions[i]) && Drained(s.sessions[i]))
          ==> (Complete(data[p], s.log, p) <==> Undisturbed(s, p)))
  {
    var s := Run(h, Start(0, count), acts);
    InOrderIff(h, data, count, acts, p);
    NothingSkipped(h, data, count, acts, p);
    RepeatsIffOutOfOrder(data[p], s.log, p);
    if exists i | 0 <= i < |s.sessions| :: Whole(data, s.sessions[i]) && Drained(s.sessions[i]) {
      CoveredOnce(data[p], s.log, p);
    }
  }

  // ----- One reader at a time -----

  /** A client that goes on reading only the recordset it opened last. */
  predicate ReadsNewest(s: System, a: Action) {
    a.Fetch? ==> a.who + 1 == |s.sessions|
  }

  predicate NewestRun(h: Hash, s: System, acts: seq<Action>) {
    acts == [] ||
    (var init := acts[..|acts| - 1];
     NewestRun(h, s, init) && ReadsNewest(Run(h, s, init), acts[|acts| - 1]))
  }

  ghost predicate NewestAlone(s: System, p: nat) {
    && Undisturbed(s, p) && (forall u | u in s.log :: u.who < |s.sessions|)
    && (s.sessions != [] ==>
          Alone(s.log, s.sessions[|s.sessions| - 1].since, |s.sessions| - 1, p))
  }

  lemma ActNewestAlone(h: Hash, s: System, a: Action, p: nat)
    requires NewestAlone(s, p) && ReadsNewest(s, a)
    ensures NewestAlone(Act(h, s, a), p)
  {
    var s' := Act(h, s, a);
    if |s'.log| > |s.log| {
      RowUndisturbed(s, s', s'.log[|s.log|], p);
    } else {
      QuietUndisturbed(s, s', p);
    }
  }

  lemma {:induction false} NewestUndisturbed(h: Hash, begin: nat, count: nat, acts: seq<Action>, p: nat)
    requires NewestRun(h, Start(begin, count), acts)
    ensures NewestAlone(Run(h, Start(begin, count), acts), p)
  {
    if acts != [] {
      NewestUndisturbed(h, begin, count, acts[..|acts| - 1], p);
      ActNewestAlone(h, Run(h, Start(begin, count), acts[..|acts| - 1]), acts[|acts| - 1], p);
    }
  }

  /** A scan abandoned and started again any number of times, the recordset opened last being the one
      read: nothing is delivered twice, skipped or reordered, and once that recordset is drained after a
      whole answer every record has been delivered exactly once. */
  lemma AbandonAndResume(h: Hash, data: seq<seq<GoRecord>>, count: nat, acts: seq<Action>, p: nat)
    requires Stored(data) && ServedRun(h, data, Start(0, count), acts) && p < count && p < PARTITIONS
    requires NewestRun(h, Start(0, count), acts)
    ensures var s := Run(h, Start(0, count), acts);
      && InOrder(data[p], s.log, p)
      && ((exists i | 0 <= i < |s.sessions| :: Whole(data, s.sessions[i]) && Drained(s.sessions[i]))
          ==> Complete(data[p], s.log, p))
  {
    ExactlyOnce(h, data, count, acts, p);
    NewestUndisturbed(h, 0, count, acts, p);
  }

  // ----- Two readers at a time -----

  /** Two recordsets opened before either is read, and the first row of the same answer read from both:
      the record is delivered twice. */
  lemma TwoReaders(h: Hash, data: seq<seq<GoRecord>>, count: nat, results: seq<Result>,
                   e: seq<Event>, e': seq<Event>, p: nat)
    requires Stored(data) && p < count && p < PARTITIONS
    requires Serves(data, ToPartitionFilter(Start(0, count).pf), results)
    requires |e| == |e'| == |results| && Sent(results, e, |e|) && Sent(results, e', |e'|)
    requires results != [] && InPartition(results[0], p)
    ensures var acts := [Open(e), Open(e'), Fetch(1), Fetch(0)];
      var d, rec := DeliveredFrom(Run(h, Start(0, count), acts).log, p), results[0].record.value;
      && ServedRun(h, data, Start(0, count), acts)
      && |d| == 2 && RecordCarried(rec, d[0]) && RecordCarried(rec, d[1])
      && !NoRepeats(d)
  {
    var s0 := Start(0, count);
    var s1 := Act(h, s0, Open(e));
    var s2 := Act(h, s1, Open(e'));
    var s3 := Act(h, s2, Fetch(1));
    RunFour(h, s0, Open(e), Open(e'), Fetch(1), Fetch(0));
    ServedFour(h, data, s0, Open(e), Open(e'), Fetch(1), Fetch(0));
    AnsweredAgain(data, s0.pf, results);
    assert Answered(data, s0.pf, e, results, |results|) && Answered(data, s1.pf, e', results, |results|);
    FetchFirst(h, s2, 1, results, e', p);
    FetchFirst(h, s3, 0, results, e, p);
    DeliveredTwice(Act(h, s3, Fetch(0)).log, p, results[0].record.value);
  }

  lemma FetchFirst(h: Hash, s: System, i: nat, results: seq<Result>, e: seq<Event>, p: nat)
    requires !s.crashed && s.pf.begin == 0 && |s.pf.partitions| == PARTITIONS && p < PARTITIONS
    requires i < |s.sessions| && s.sessions[i].stream == Some(e) && |e| > 0 && Sent(results, e, |e|)
    requires InPartition(results[0], p)
    ensures var s' := Act(h, s, Fetch(i));
      && !s'.crashed && s'.pf.begin == 0 && |s'.pf.partitions| == PARTITIONS
      && |s'.sessions| == |s.sessions|
      && (forall j | 0 <= j < |s.sessions| && j != i :: s'.sessions[j] == s.sessions[j])
      && |s'.log| == |s.log| + 1 && s'.log[..|s.log|] == s.log
      && s'.log[|s.log|].pid == p && RecordCarried(results[0].record.value, s'.log[|s.log|].record)
  {
    ItemCarried(h, results[0], e[0].response);
  }

  lemma DeliveredTwice(log: seq<Taken>, p: nat, rec: GoRecord)
    requires |log| == 2 && rec.key.Some?
    requires log[0].pid == p && RecordCarried(rec, log[0].record)
    requires log[1].pid == p && RecordCarried(rec, log[1].record)
    ensures DeliveredFrom(log, p) == [log[0].record, log[1].record] && !NoRepeats(DeliveredFrom(log, p))
  {
    assert log[..1][..0] == [];
    assert DeliveredFrom(log[..1], p) == [log[0].record];
    var d := [log[0].record, log[1].record];
    assert DigestOf(d[0]) == DigestOf(d[1]);
  }

  /** A table that has only been filled asks for the same as an empty one. */
  lemma AnsweredAgain(data: seq<seq<GoRecord>>, pf: PartitionFilter, results: seq<Result>)
    requires pf.partitions == [] && |data| == PARTITIONS && Serves(data, ToPartitionFilter(pf), results)
    ensures Serves(data, ToPartitionFilter(Initialised(pf)), results)
  {
    var gf := ToPartitionFilter(Initialised(pf));
    forall q | gf.Begin <= q < gf.Begin + gf.Count && q < |data|
      ensures RowsOf(results, q) == After(data[q], CursorFor(gf, q))
    {
      assert CursorFor(gf, q) == [] == CursorFor(ToPartitionFilter(pf), q);
    }
  }

  lemma ServedFour(h: Hash, data: seq<seq<GoRecord>>, s: System, a: Action, b: Action, c: Action, d: Action)
    ensures ServedRun(h, data, s, [a, b, c, d])
            <==> Served(data, s, a) && Served(data, Act(h, s, a), b)
                 && Served(data, Act(h, Act(h, s, a), b), c)
                 && Served(data, Act(h, Act(h, Act(h, s, a), b), c), d)
  {
    assert [] + [a] == [a] && [a] + [b] == [a, b] && [a, b] + [c] == [a, b, c] && [a, b, c] + [d] == [a, b, c, d];
    ServedMore(h, data, s, [], a);
    ServedMore(h, data, s, [a], b);
    ServedMore(h, data, s, [a, b], c);
    ServedMore(h, data, s, [a, b, c], d);
    RunMore(h, s, [], a);
    RunMore(h, s, [a], b);
    RunMore(h, s, [a, b], c);
  }

  lemma ServedMore(h: Hash, data: seq<seq<GoRecord>>, s: System, acts: seq<Action>, a: Action)
    ensures ServedRun(h, data, s, acts + [a]) <==> ServedRun(h, data, s, acts) && Served(data, Run(h, s, acts), a)
  {
    assert (acts + [a])[..|acts|] == acts;
  }

  /** One stored record suffices: whatever the hash, there is a run that delivers it twice. */
  lemma TwoReadersExample(h: Hash) returns (data: seq<seq<GoRecord>>, acts: seq<Action>, r: Record)
    ensures Stored(data) && ServedRun(h, data, Start(0, PARTITIONS), acts)
    ensures |data[0]| == 1 && RecordCarried(data[0][0], r)
    ensures DeliveredFrom(Run(h, Start(0, PARTITIONS), acts).log, 0) == [r, r]
  {
    var rec := GoRecord(Some(GoKey([0, 0, 0, 0], [], [], G.Scalar(G.NullValue))), 0, 0, map[]);
    var key := Key(Some([0, 0, 0, 0]), Some([]), Some([]), Some(Value(Some(NilV(true)))));
    r := Record(Some(key), 0, 0, map[]);
    data := OneStored(rec);
    var results, e := [Row(Some(rec), None)], [Message(StreamResponse(Some(r), None, None))];
    OneServed(rec, data, ToPartitionFilter(Start(0, PARTITIONS).pf));
    assert RecordCarried(rec, r);
    assert Carried(results[0], e[0].response);
    acts := [Open(e), Open(e), Fetch(1), Fetch(0)];
    TwoReaders(h, data, PARTITIONS, results, e, e, 0);
    OneFetched(h, e, r);
  }

  lemma OneFetched(h: Hash, e: seq<Event>, r: Record)
    requires e == [Message(StreamResponse(Some(r), None, None))]
    ensures forall d | d in Run(h, Start(0, PARTITIONS), [Open(e), Open(e), Fetch(1), Fetch(0)]).log :: d.record == r
  {
    RunFour(h, Start(0, PARTITIONS), Open(e), Open(e), Fetch(1), Fetch(0));
  }

  lemma OneStored(rec: GoRecord) returns (data: seq<seq<GoRecord>>)
    requires rec.key == Some(GoKey([0, 0, 0, 0], [], [], G.Scalar(G.NullValue)))
    ensures Stored(data) && forall p | 0 <= p < PARTITIONS :: data[p] == if p == 0 then [rec] else []
  {
    data := seq(PARTITIONS, p => if p == 0 then [rec] else []);
    OneRecord(rec);
  }

  lemma OneServed(rec: GoRecord, data: seq<seq<GoRecord>>, gf: GoPartitionFilter)
    requires rec.key == Some(GoKey([0, 0, 0, 0], [], [], G.Scalar(G.NullValue)))
    requires |data| == PARTITIONS && forall p | 0 <= p < PARTITIONS :: data[p] == if p == 0 then [rec] else []
    requires gf.Begin == 0 && gf.Count == PARTITIONS && gf.Partitions == []
    ensures Serves(data, gf, [Row(Some(rec), None)]) && InPartition(Row(Some(rec), None), 0)
  {
    var results := [Row(Some(rec), None)];
    OneRecord(rec);
    assert InPartition(results[0], 0);
    assert RowsFor([rec]) == results;
    forall p | 0 <= p < PARTITIONS ensures RowsOf(results, p) == After(data[p], CursorFor(gf, p)) {
      RowsOfOnePartition([rec], 0, p);
    }
  }

  lemma OneRecord(rec: GoRecord)
    requires rec.key == Some(GoKey([0, 0, 0, 0], [], [], G.Scalar(G.NullValue)))
    ensures KeyIn(rec.key.value, 0) && Ascending([rec])
    ensures After([rec], []) == [rec] && After([], []) == []
  {
    PartitionOfDigestBytes([0, 0, 0, 0]);
  }

  // ----- Why the filter must begin at 0 -----

  /** Consuming a record moves the cursor the server will see for its partition exactly when the
      filter begins at partition 0: the table is built with ids from 0 but indexed from `begin`. */
  lemma ResumeNeedsBeginZero(h: Hash, s: System, i: nat)
    requires Inv(h, s) && !s.crashed && i < |s.sessions|
    requires s.sessions[i].stream.Some? && s.sessions[i].stream.value != []
    requires var item := ItemOf(h, s.sessions[i].stream.value[0]);
      item.Keyed? && item.digest.Some? && s.pf.begin <= item.pid
    ensures var item := ItemOf(h, s.sessions[i].stream.value[0]);
      CursorFor(ToPartitionFilter(Act(h, s, Fetch(i)).pf), item.pid) == item.digest.value <==> s.pf.begin == 0
  {
    var item, s' := ItemOf(h, s.sessions[i].stream.value[0]), Act(h, s, Fetch(i));
    FetchKeepsTable(h, s, i);
    assert s'.log == s.log + [TakenFrom(i, item)];
    CursorAt(s'.pf, s'.log, item.pid);
    CursorMoved(s.log, TakenFrom(i, item), s.pf.begin);
  }

  lemma CursorMoved(log: seq<Taken>, t: Taken, begin: nat)
    requires t.digest.Some? && forall u | u in log + [t] :: DigestFits(u)
    ensures LastDigest(log + [t], begin + t.pid) == t.digest.value <==> begin == 0
  {
    assert (log + [t])[|log|] == t;
    assert DigestFits(t);
    LastDigestFits(log + [t], begin + t.pid);
  }

  lemma {:induction false} LastDigestFits(log: seq<Taken>, p: nat)
    requires forall t | t in log :: DigestFits(t)
    ensures var d := LastDigest(log, p); d == [] || (|d| >= 4 && PartitionOfDigest(d) == p)
  {
    if log != [] {
      assert log[|log| - 1] in log;
      LastDigestFits(log[..|log| - 1], p);
    }
  }
}
