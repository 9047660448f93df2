/** The connection manager's half of a scan: translation of the partition filter and the loop that
    forwards results to the stream (aerospike-connection-manager/kvs.go). `Query` runs the same loop. */
module ScanServer {
  import opened Basics
  import opened Wire
  import opened Keys
  import P = PhpCodec
  import G = GoCodec

  // ----- toPartitionFilter -----

  datatype GoPartitionStatus = GoPartitionStatus(BVal: int64, Id: nat, Retry: bool, Digest: seq<byte>)

  datatype GoPartitionFilter = GoPartitionFilter(
    Begin: nat,
    Count: nat,
    Digest: seq<byte>,
    Partitions: seq<Option<GoPartitionStatus>>,
    Done: bool,
    Retry: bool
  )

  function ToPartitionStatus(ps: PartitionStatus): GoPartitionStatus {
    GoPartitionStatus(if ps.bval.Some? then ps.bval.value else 0, ps.id, ps.retry, ps.digest)
  }

  function ToPartitionStatuses(ps: seq<PartitionStatus>): seq<Option<GoPartitionStatus>> {
    seq(|ps|, i requires 0 <= i < |ps| => Some(ToPartitionStatus(ps[i])))
  }

  function ToPartitionFilter(pf: PartitionFilter): GoPartitionFilter {
    GoPartitionFilter(pf.begin, pf.count, pf.digest, ToPartitionStatuses(pf.partitions), pf.done, pf.retry)
  }

  method ToPartitionStatusesLoop(ps: seq<PartitionStatus>) returns (res: seq<Option<GoPartitionStatus>>)
    ensures res == ToPartitionStatuses(ps)
  {
    res := seq(|ps|, _ => None);
    for i := 0 to |ps|
      invariant |res| == |ps|
      invariant forall j :: 0 <= j < i ==> res[j] == Some(ToPartitionStatus(ps[j]))
    {
      res := res[i := Some(ToPartitionStatus(ps[i]))];
    }
  }

  /** Every field of the filter arrives as it was sent. */
  lemma FilterArrives(pf: PartitionFilter)
    ensures var gf := ToPartitionFilter(pf);
      && gf.Begin == pf.begin && gf.Count == pf.count && gf.Digest == pf.digest
      && gf.Done == pf.done && gf.Retry == pf.retry && |gf.Partitions| == |pf.partitions|
      && forall i | 0 <= i < |pf.partitions| ::
           && gf.Partitions[i].Some?
           && var g, ps := gf.Partitions[i].value, pf.partitions[i];
             && g.Id == ps.id && g.Digest == ps.digest && g.Retry == ps.retry
             && g.BVal == match ps.bval { case Some(b) => b case None => 0 }
  {
  }

  // ----- Records -----

  /** A record of the Go client. */
  datatype GoKey = GoKey(digest: seq<byte>, namespace: Text, set_: Text, value: G.GoAny)

  datatype GoRecord = GoRecord(key: Option<GoKey>, generation: nat, expiration: nat, bins: map<Text, G.GoAny>)

  /** A result on the channel: an error, or a record with its bval. */
  datatype Result = Failed(err: Error) | Row(record: Option<GoRecord>, bval: Option<int64>)

  /** The message `w` carries the key `k`. */
  ghost predicate KeyCarried(k: GoKey, w: Key) {
    && w.digest == Some(k.digest) && w.namespace == Some(k.namespace) && w.set_ == Some(k.set_)
    && w.value.Some? && G.Encodes(k.value, w.value.value)
  }

  /** The message `w` carries the record `r`: its key, its counters, and a value under each of its bin names
      that encodes the one in the bin. */
  ghost predicate RecordCarried(r: GoRecord, w: Record) {
    && (w.key.Some? <==> r.key.Some?) && (r.key.Some? ==> KeyCarried(r.key.value, w.key.value))
    && w.generation == r.generation && w.expiration == r.expiration
    && BinsCarried(r.bins, w.bins)
  }

  ghost predicate BinsCarried(bins: map<Text, G.GoAny>, w: map<Text, Value>) {
    w.Keys == bins.Keys && forall b | b in bins :: G.Encodes(bins[b], w[b])
  }

  /** The response `w` carries the result `res`. */
  ghost predicate Carried(res: Result, w: StreamResponse) {
    match res
    case Failed(err) => w == StreamResponse(None, Some(err), None)
    case Row(r, bval) =>
      && w.error.None? && w.bval == bval
      && (w.record.Some? <==> r.Some?) && (r.Some? ==> RecordCarried(r.value, w.record.value))
  }

  ghost predicate KeySendable(k: Option<GoKey>) {
    k.Some? ==> G.Encodable(k.value.value)
  }

  /** All values inside the result have types that can be encoded. */
  ghost predicate Sendable(res: Result) {
    res.Row? && res.record.Some? ==>
      && KeySendable(res.record.value.key)
      && forall b | b in res.record.value.bins :: G.Encodable(res.record.value.bins[b])
  }

  method FromKey(k: Option<GoKey>) returns (w: Outcome<Option<Key>>)
    ensures w.Ok? <==> KeySendable(k)
    ensures w.Ok? ==> (w.value.Some? <==> k.Some?) && (k.Some? ==> KeyCarried(k.value, w.value.value))
  {
    if k.None? {
      return Ok(None);
    }
    var v := G.FromValue(k.value.value);
    w := if v.Ok? then Ok(Some(Key(Some(k.value.digest), Some(k.value.namespace), Some(k.value.set_), Some(v.value))))
         else Panic;
  }

  method FromBins(bins: map<Text, G.GoAny>) returns (w: Outcome<map<Text, Value>>)
    ensures w.Ok? <==> forall b | b in bins :: G.Encodable(bins[b])
    ensures w.Ok? ==> BinsCarried(bins, w.value)
  {
    var res: map<Text, Value> := map[];
    var rest := bins.Keys;
    while rest != {}
      invariant rest <= bins.Keys && res.Keys == bins.Keys - rest
      invariant forall b | b in res :: G.Encodable(bins[b]) && G.Encodes(bins[b], res[b])
      decreases rest
    {
      var b :| b in rest;
      var v := G.FromValue(bins[b]);
      if v.Panic? {
        return Panic;
      }
      res, rest := res[b := v.value], rest - {b};
    }
    w := Ok(res);
  }

  method FromRecord(r: GoRecord) returns (w: Outcome<Record>)
    ensures w.Ok? <==> Sendable(Row(Some(r), None))
    ensures w.Ok? ==> RecordCarried(r, w.value)
  {
    var key := FromKey(r.key);
    var bins := FromBins(r.bins);
    w := if key.Ok? && bins.Ok? then Ok(Record(key.value, r.generation, r.expiration, bins.value)) else Panic;
  }

  /** A record that was carried has the bins of its row, and the Rust client decodes each to what it means:
      exactly if every JSON value in it is empty, the decoding succeeds. */
  lemma BinsArrive(r: GoRecord, w: Record, b: Text)
    requires RecordCarried(r, w)
    ensures b in w.bins <==> b in r.bins
    ensures b in r.bins ==> (P.Decode(w.bins[b]).Ok? <==> G.JsonEmpty(r.bins[b]))
    ensures b in r.bins && G.JsonEmpty(r.bins[b]) && G.KeysStayDistinct(r.bins[b]) ==>
              P.Decode(w.bins[b]) == Ok(G.Meaning(r.bins[b]))
  {
    if b in r.bins {
      G.ResponseDecodes(r.bins[b], w.bins[b]);
      P.DecodeTotal(w.bins[b]);
      if G.JsonEmpty(r.bins[b]) && G.KeysStayDistinct(r.bins[b]) {
        G.ResponseMeans(r.bins[b], w.bins[b]);
      }
    }
  }

  // ----- Where the Rust client books a record -----

  /** The Rust client computes partition `p` for this key: the stored digest is in it, and the key's value
      can be decoded and has a particle type. */
  ghost predicate KeyIn(k: GoKey, p: nat) {
    && |k.digest| >= 4 && PartitionOfDigest(k.digest) == p
    && G.JsonEmpty(k.value) && k.value != G.Scalar(G.InfinityValue) && k.value != G.Scalar(G.WildcardValue)
  }

  lemma KeyBooked(h: Hash, k: GoKey, w: Key)
    requires KeyCarried(k, w)
    ensures forall p: nat :: PartitionId(h, w) == Ok(p) <==> KeyIn(k, p)
  {
    ValueReadable(k.value, w.value.value);
  }

  lemma ValueReadable(a: G.GoAny, w: Value)
    requires G.Encodes(a, w)
    ensures P.Decode(w).Ok? && !ParticleType(P.Decode(w).value).Panic?
            <==> G.JsonEmpty(a) && a != G.Scalar(G.InfinityValue) && a != G.Scalar(G.WildcardValue)
  {
    G.ResponseDecodes(a, w);
    P.DecodeTotal(w);
    if a.Scalar? {
      G.ScalarDecodes(a.scalar);
    }
  }

  // ----- The forwarding loop -----

  /** What the client library returns for a scan: an error, or a recordset with its results. */
  datatype Opening = Refused(err: Error) | Started(results: seq<Result>)

  /** What ends a scan call. */
  datatype Ending = Done | OpenFailed | SendFailed | Aborted

  /** What is sent when the first `accepts` sends succeed: every result once and in order, until a send
      fails or a value cannot be encoded; or one error if there is nothing to send. */
  ghost predicate Forwarded(opening: Opening, accepts: nat, sent: seq<StreamResponse>, ending: Ending) {
    match opening
    case Refused(err) =>
      ending == OpenFailed && sent == if accepts > 0 then [StreamResponse(None, Some(err), None)] else []
    case Started(results) =>
      var n := |sent|;
      && n <= |results| && n <= accepts
      && (forall i | 0 <= i < n :: Sendable(results[i]) && Carried(results[i], sent[i]))
      && ending == (if n == |results| then Done else if Sendable(results[n]) then SendFailed else Aborted)
      && (ending == SendFailed ==> n == accepts)
  }

  /** `Scan` and `Query`; a failing send also closes the recordset. */
  method Serve(opening: Opening, accepts: nat)
    returns (sent: seq<StreamResponse>, closed: bool, ending: Ending)
    ensures Forwarded(opening, accepts, sent, ending)
    ensures closed <==> ending == SendFailed
  {
    sent, closed := [], false;
    if opening.Refused? {
      if accepts > 0 {
        sent := [StreamResponse(None, Some(opening.err), None)];
      }
      return sent, false, OpenFailed;
    }
    var results := opening.results;
    for i := 0 to |results|
      invariant |sent| == i <= accepts
      invariant forall j | 0 <= j < i :: Sendable(results[j]) && Carried(results[j], sent[j])
    {
      var res := results[i];
      if res.Failed? {
        if |sent| == accepts {
          return sent, true, SendFailed;
        }
        sent := sent + [StreamResponse(None, Some(res.err), None)];
        continue;
      }
      var resp := StreamResponse(None, None, res.bval);
      if res.record.Some? {
        var record := FromRecord(res.record.value);
        if record.Panic? {
          return sent, false, Aborted;
        }
        resp := resp.(record := Some(record.value));
      }
      if |sent| == accepts {
        return sent, true, SendFailed;
      }
      sent := sent + [resp];
    }
    ending := Done;
  }
}
