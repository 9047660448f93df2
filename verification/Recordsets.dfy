/** Partition filters shared by recordsets, and the consumption of a response stream by
    `Recordset::next` (src/lib.rs). */
module Recordsets {
  import opened Basics
  import opened Wire
  import opened Keys

  /** What the gRPC stream yields next: a message or a transport error. */
  datatype Event = Message(response: StreamResponse) | Fault(status: Text)

  /** What a call of `next` gives to PHP. */
  datatype Next = Nothing | Fetched(record: Record) | Thrown | Panicked

  /** A transport fault, or a message that carries an error only. */
  predicate Trouble(e: Event) {
    e.Fault? || (e.response.record.None? && e.response.error.Some?)
  }

  /** A record with a key whose partition can be computed and has an entry in the table. */
  predicate Bookable(h: Hash, pf: PartitionFilter, e: Event) {
    && e.Message? && e.response.record.Some? && e.response.record.value.key.Some?
    && var pid := PartitionId(h, e.response.record.value.key.value);
      pid.Ok? && pf.begin <= pid.value && pid.value - pf.begin < |pf.partitions|
  }

  /** What `next` makes of one event. */
  datatype Item =
    | Skip
    | Raise
    | Crash
    | Keyed(pid: nat, digest: Option<seq<byte>>, bval: Option<int64>, record: Record)

  function ItemOf(h: Hash, e: Event): (item: Item)
    ensures item.Keyed? ==> item.pid < PARTITIONS
  {
    match e
    case Fault(_) => Raise
    case Message(r) =>
      if r.record.Some? then
        if r.record.value.key.None? then Skip else
        var pid := PartitionId(h, r.record.value.key.value);
        if pid.Panic? then Crash
        else Keyed(pid.value, r.record.value.key.value.digest, r.bval, r.record.value)
      else if r.error.Some? then Raise else Skip
  }

  // ----- The cursor table -----

  function FreshStatuses(): seq<PartitionStatus> {
    seq(PARTITIONS, id requires 0 <= id < PARTITIONS => PartitionStatus(None, id, false, []))
  }

  /** `init_partition_status`: fills an empty table, leaves any other alone. */
  function Initialised(pf: PartitionFilter): PartitionFilter {
    if |pf.partitions| > 0 then pf else pf.(partitions := FreshStatuses())
  }

  predicate HasEntry(pf: PartitionFilter, pid: nat) {
    pf.begin <= pid && pid - pf.begin < |pf.partitions|
  }

  /** The entry at `pid - begin` takes the bval, and the digest if there is one. */
  function Advance(pf: PartitionFilter, pid: nat, digest: Option<seq<byte>>, bval: Option<int64>): PartitionFilter
    requires HasEntry(pf, pid)
  {
    var i := pid - pf.begin;
    var ps := pf.partitions[i].(bval := bval);
    pf.(partitions := pf.partitions[i := if digest.Some? then ps.(digest := digest.value) else ps])
  }

  datatype Step = Step(pf: PartitionFilter, stream: Option<seq<Event>>, out: Next)

  /** One call of `next`, on the filter and the stream as values. */
  function NextStep(h: Hash, pf: PartitionFilter, stream: Option<seq<Event>>): Step {
    if stream.None? || stream.value == [] then Step(pf, None, Nothing) else
    var rest := Some(stream.value[1..]);
    match ItemOf(h, stream.value[0])
    case Skip => Step(pf, rest, Nothing)
    case Raise => Step(pf, rest, Thrown)
    case Crash => Step(pf, rest, Panicked)
    case Keyed(pid, digest, bval, record) =>
      if HasEntry(pf, pid) then Step(Advance(pf, pid, digest, bval), rest, Fetched(record))
      else Step(pf, rest, Panicked)
  }

  /** Told by the first event: `next` throws exactly on a transport fault or an error without a record,
      leaving the filter alone and the recordset open; it hands out exactly the records it can book, and
      then only the entry of the record's partition changes; it panics exactly on the other keyed records,
      and gives nothing otherwise. At the end of the stream it closes the recordset. */
  lemma NextMeans(h: Hash, pf: PartitionFilter, stream: Option<seq<Event>>)
    ensures var step := NextStep(h, pf, stream);
      if stream.None? || stream.value == [] then step == Step(pf, None, Nothing)
      else
        var e := stream.value[0];
        var keyed := e.Message? && e.response.record.Some? && e.response.record.value.key.Some?;
        && step.stream == Some(stream.value[1..])
        && (step.out.Thrown? <==> Trouble(e))
        && (step.out.Panicked? <==> keyed && !Bookable(h, pf, e))
        && (step.out.Fetched? <==> Bookable(h, pf, e))
        && (!step.out.Fetched? ==> step.pf == pf)
        && (step.out.Fetched? ==> step.out.record == e.response.record.value && EntryBooked(h, pf, e, step.pf))
  {
  }

  /** The filter after the record in `e` was booked. */
  predicate EntryBooked(h: Hash, pf: PartitionFilter, e: Event, pf': PartitionFilter)
    requires Bookable(h, pf, e)
  {
    var key := e.response.record.value.key.value;
    var i := PartitionId(h, key).value - pf.begin;
    && pf'.(partitions := []) == pf.(partitions := []) && |pf'.partitions| == |pf.partitions|
    && (forall j | 0 <= j < |pf.partitions| && j != i :: pf'.partitions[j] == pf.partitions[j])
    && pf'.partitions[i].bval == e.response.bval
    && pf'.partitions[i].digest == (if key.digest.Some? then key.digest.value else pf.partitions[i].digest)
    && pf'.partitions[i].id == pf.partitions[i].id && pf'.partitions[i].retry == pf.partitions[i].retry
  }

  // ----- The objects -----

  /** `Arc<Mutex<proto::PartitionFilter>>`: a cell that several recordsets may hold. */
  class SharedFilter {
    var pf: PartitionFilter

    constructor All()
      ensures pf == PartitionFilter(0, PARTITIONS, [], [], false, false)
    {
      pf := PartitionFilter(0, PARTITIONS, [], [], false, false);
    }

    constructor Partition(id: nat)
      ensures pf == PartitionFilter(id, 1, [], [], false, false)
    {
      pf := PartitionFilter(id, 1, [], [], false, false);
    }

    constructor Range(begin: nat, count: nat)
      ensures pf == PartitionFilter(begin, count, [], [], false, false)
    {
      pf := PartitionFilter(begin, count, [], [], false, false);
    }

    method InitPartitionStatus()
      modifies this
      ensures pf == Initialised(old(pf))
    {
      if |pf.partitions| > 0 {
        return;
      }
      var statuses: seq<PartitionStatus> := [];
      for id := 0 to PARTITIONS
        invariant statuses == FreshStatuses()[..id]
      {
        statuses := statuses + [PartitionStatus(None, id, false, [])];
      }
      pf := pf.(partitions := statuses);
    }
  }

  class Recordset {
    var stream: Option<seq<Event>>
    const filter: SharedFilter

    constructor (events: seq<Event>, filter: SharedFilter)
      ensures stream == Some(events) && this.filter == filter
    {
      stream := Some(events);
      this.filter := filter;
    }

    method Close()
      modifies this
      ensures stream == None
    {
      stream := None;
    }

    method Next(h: Hash) returns (out: Next)
      modifies this, filter
      ensures Step(filter.pf, stream, out) == NextStep(h, old(filter.pf), old(stream))
      ensures out.Thrown? <==> old(stream).Some? && old(stream).value != [] && Trouble(old(stream).value[0])
      ensures out.Thrown? ==> filter.pf == old(filter.pf) && stream == Some(old(stream).value[1..])
    {
      if stream.None? {
        return Nothing;
      }
      if stream.value == [] {
        Close();
        return Nothing;
      }
      var event := stream.value[0];
      stream := Some(stream.value[1..]);
      var item := ItemOf(h, event);
      match item
      case Skip => out := Nothing;
      case Raise => out := Thrown;
      case Crash => out := Panicked;
      case Keyed(pid, digest, bval, record) =>
        var pf := filter.pf;
        if pid < pf.begin || |pf.partitions| <= pid - pf.begin {
          return Panicked;
        }
        var ps := pf.partitions[pid - pf.begin];
        ps := ps.(bval := bval);
        if digest.Some? {
          ps := ps.(digest := digest.value);
        }
        filter.pf := pf.(partitions := pf.partitions[pid - pf.begin := ps]);
        out := Fetched(record);
    }
  }

  /** `Client::scan` and `Client::query`: `serve` is the connection manager's answer to the filter as
      it stands, which is initialised only after a successful call. */
  method Scan(filter: SharedFilter, serve: PartitionFilter -> Option<seq<Event>>) returns (rs: Option<Recordset>)
    modifies filter
    ensures rs.Some? <==> serve(old(filter.pf)).Some?
    ensures rs.None? ==> filter.pf == old(filter.pf)
    ensures rs.Some? ==> filter.pf == Initialised(old(filter.pf)) && fresh(rs.value)
    ensures rs.Some? ==> rs.value.filter == filter && rs.value.stream == serve(old(filter.pf))
  {
    var answer := serve(filter.pf);
    if answer.None? {
      return None;
    }
    filter.InitPartitionStatus();
    var r := new Recordset(answer.value, filter);
    rs := Some(r);
  }
}
