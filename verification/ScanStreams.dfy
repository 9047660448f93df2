/** A scan from end to end: the results the connection manager forwards, what arrives of them, and the
    records PHP is handed. */
module ScanStreams {
  import opened Basics
  import opened Wire
  import opened Keys
  import opened Recordsets
  import opened Cursors
  import opened ScanServer
  import opened ScanContract
  import P = PhpCodec
  import G = GoCodec
  import E = ExactlyOnce

  /** What arrives of the responses the connection manager sent; a call that failed ends in a fault. */
  function Arriving(sent: seq<StreamResponse>, ending: Ending, status: Text): seq<Event> {
    seq(|sent|, i requires 0 <= i < |sent| => Message(sent[i])) + if ending == Done then [] else [Fault(status)]
  }

  /** The stream of a scan is an answer, cut where a send or an encoding failed: the forwarding loop meets
      what is assumed of a session, with a failing open as an answer cut before its first result. */
  lemma ForwardedIsAnswered(data: seq<seq<GoRecord>>, pf: PartitionFilter, opening: Opening, accepts: nat,
                            sent: seq<StreamResponse>, ending: Ending, status: Text, results: seq<Result>)
    requires Serves(data, ToPartitionFilter(pf), results)
    requires opening.Started? ==> opening.results == results
    requires Forwarded(opening, accepts, sent, ending)
    ensures Answered(data, pf, Arriving(sent, ending, status), results, if opening.Started? then |sent| else 0)
    ensures ending == Done ==> opening.Started? && |sent| == |results|
  {
    var events, n := Arriving(sent, ending, status), if opening.Started? then |sent| else 0;
    assert forall k | 0 <= k < |sent| :: events[k] == Message(sent[k]);
    assert Sent(results, events, n);
  }

  // ----- Records -----

  /** The results that PHP can be handed as records: keyed rows from partition `begin` on. */
  ghost function KeyedRows(begin: nat, results: seq<Result>): seq<Result> {
    if results == [] then [] else
    var init, last := KeyedRows(begin, results[..|results| - 1]), results[|results| - 1];
    if Keyable(begin, last) then init + [last] else init
  }

  ghost predicate Keyable(begin: nat, res: Result) {
    exists p: nat :: begin <= p && InPartition(res, p)
  }

  /** What PHP was handed is the row `res`: its record and bval, booked under the partition of its digest. */
  ghost predicate Handed(res: Result, t: Taken) {
    && res.Row? && res.record.Some? && res.record.value.key.Some?
    && RecordCarried(res.record.value, t.record) && t.bval == res.bval
    && t.digest == Some(res.record.value.key.value.digest) && InPartition(res, t.pid)
  }

  ghost predicate AllHanded(rows: seq<Result>, taken: seq<Taken>) {
    |taken| == |rows| && forall j | 0 <= j < |rows| :: Handed(rows[j], taken[j])
  }

  lemma {:induction false} DeliveredRows(h: Hash, who: nat, begin: nat, results: seq<Result>,
                                         events: seq<Event>, n: nat)
    requires Sent(results, events, n)
    ensures AllHanded(KeyedRows(begin, results[..n]), Delivered(h, who, begin, events[..n]))
  {
    if n > 0 {
      DeliveredRows(h, who, begin, results, events, n - 1);
      assert events[..n][..n - 1] == events[..n - 1] && results[..n][..n - 1] == results[..n - 1];
      var res := results[n - 1];
      E.ItemCarried(h, res, events[n - 1].response);
      var item := ItemOf(h, events[n - 1]);
      assert item.Keyed? && begin <= item.pid <==> Keyable(begin, res) by {
        OnePartition(res);
      }
    }
  }

  lemma OnePartition(res: Result)
    ensures forall p: nat, q: nat :: InPartition(res, p) && InPartition(res, q) ==> p == q
  {
  }

  lemma {:induction false} NothingInTrouble(h: Hash, who: nat, begin: nat, events: seq<Event>, n: nat)
    requires n <= |events| && forall k | n <= k < |events| :: Trouble(events[k])
    ensures Delivered(h, who, begin, events) == Delivered(h, who, begin, events[..n])
  {
    if n == |events| {
      assert events[..n] == events;
    } else {
      NothingInTrouble(h, who, begin, events[..|events| - 1], n);
      assert events[..|events| - 1][..n] == events[..n];
    }
  }

  lemma ArrivingSent(results: seq<Result>, accepts: nat, sent: seq<StreamResponse>, ending: Ending, status: Text)
    requires Forwarded(Started(results), accepts, sent, ending)
    ensures var events := Arriving(sent, ending, status);
      Sent(results, events, |sent|) && forall k | |sent| <= k < |events| :: Trouble(events[k])
  {
    var events := Arriving(sent, ending, status);
    assert forall k | 0 <= k < |sent| :: events[k] == Message(sent[k]);
  }

  /** From the results in Go to PHP, in any interleaving: what a recordset has handed out are exactly the
      keyed rows, in order, of the results sent and consumed so far, each with the key, the counters, the
      bval and the bins of its row. */
  lemma StreamConserved(h: Hash, s: System, i: nat, results: seq<Result>, accepts: nat,
                        sent: seq<StreamResponse>, ending: Ending, status: Text)
    requires Inv(h, s) && i < |s.sessions|
    requires Forwarded(Started(results), accepts, sent, ending)
    requires s.sessions[i].events == Arriving(sent, ending, status)
    ensures var n := s.sessions[i].consumed;
      AllHanded(KeyedRows(s.pf.begin, results[..if n <= |sent| then n else |sent|]), TakenBy(s.log, i))
  {
    var n, events := s.sessions[i].consumed, s.sessions[i].events;
    var k := if n <= |sent| then n else |sent|;
    assert Conserved(h, s, i);
    ArrivingSent(results, accepts, sent, ending, status);
    assert events[..n][..k] == events[..k];
    NothingInTrouble(h, i, s.pf.begin, events[..n], k);
    DeliveredRows(h, i, s.pf.begin, results, events, k);
  }

  /** Field by field: a record that PHP was handed has the digest, namespace, set, generation and expiration
      of its row and exactly its bin names, and the Rust client decodes every bin to the meaning of the Go
      value in it, and the key likewise. */
  lemma HandedFields(res: Result, t: Taken, b: Text)
    requires Handed(res, t)
    ensures var r, w := res.record.value, t.record;
      && w.key.Some? && w.key.value.digest == Some(r.key.value.digest)
      && w.key.value.namespace == Some(r.key.value.namespace) && w.key.value.set_ == Some(r.key.value.set_)
      && w.generation == r.generation && w.expiration == r.expiration && t.bval == res.bval
      && (b in w.bins <==> b in r.bins)
      && (b in r.bins ==> (P.Decode(w.bins[b]).Ok? <==> G.JsonEmpty(r.bins[b])))
      && (b in r.bins && G.JsonEmpty(r.bins[b]) && G.KeysStayDistinct(r.bins[b]) ==>
            P.Decode(w.bins[b]) == Ok(G.Meaning(r.bins[b])))
      && w.key.value.value.Some?
      && (G.KeysStayDistinct(r.key.value.value) ==>
            P.Decode(w.key.value.value.value) == Ok(G.Meaning(r.key.value.value)))
  {
    BinsArrive(res.record.value, t.record, b);
    if G.KeysStayDistinct(res.record.value.key.value.value) {
      G.ResponseMeans(res.record.value.key.value.value, t.record.key.value.value.value);
    }
  }
}
