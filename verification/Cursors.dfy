/** Whole runs over one shared filter: any number of recordsets, with `next`, `close` and new scans
    interleaved in any order. */
module Cursors {
  import opened Basics
  import opened Wire
  import opened Keys
  import opened Recordsets

  /** A keyed record that recordset `who` handed to PHP. */
  datatype Taken = Taken(who: nat, pid: nat, digest: Option<seq<byte>>, bval: Option<int64>, record: Record)

  /** One recordset: the filter its scan sent, how many records had been delivered by then, the events
      its stream was opened with, how many of them were consumed, and how often it has thrown. */
  datatype Session = Session(
    asked: PartitionFilter,
    since: nat,
    events: seq<Event>,
    consumed: nat,
    thrown: nat,
    stream: Option<seq<Event>>
  )

  datatype System = System(pf: PartitionFilter, sessions: seq<Session>, log: seq<Taken>, crashed: bool)

  datatype Action = Open(events: seq<Event>) | Fetch(who: nat) | Close(who: nat)

  /** A panic ends the PHP request: a crashed system does not move. */
  function Act(h: Hash, s: System, a: Action): System {
    if s.crashed then s else
    match a
    case Open(events) =>
      s.(pf := Initialised(s.pf), sessions := s.sessions + [Session(s.pf, |s.log|, events, 0, 0, Some(events))])
    case Close(i) =>
      if i < |s.sessions| then s.(sessions := s.sessions[i := s.sessions[i].(stream := None)]) else s
    case Fetch(i) =>
      if i >= |s.sessions| || s.sessions[i].stream.None? then s else
      var ss, stream := s.sessions[i], s.sessions[i].stream.value;
      var step := NextStep(h, s.pf, Some(stream));
      var ss' := ss.(consumed := if stream == [] then ss.consumed else ss.consumed + 1,
                     thrown := if step.out.Thrown? then ss.thrown + 1 else ss.thrown,
                     stream := step.stream);
      System(step.pf, s.sessions[i := ss'],
             if step.out.Fetched? then s.log + [TakenFrom(i, ItemOf(h, stream[0]))] else s.log,
             step.out.Panicked?)
  }

  function TakenFrom(who: nat, item: Item): Taken
    requires item.Keyed?
  {
    Taken(who, item.pid, item.digest, item.bval, item.record)
  }

  function Run(h: Hash, s: System, acts: seq<Action>): System {
    if acts == [] then s else Act(h, Run(h, s, acts[..|acts| - 1]), acts[|acts| - 1])
  }

  function Start(begin: nat, count: nat): System {
    System(PartitionFilter(begin, count, [], [], false, false), [], [], false)
  }

  // ----- Specification -----

  /** The last digest any record of partition `pid` carried, empty if none did. */
  function LastDigest(log: seq<Taken>, pid: nat): seq<byte> {
    if log == [] then []
    else if log[|log| - 1].pid == pid && log[|log| - 1].digest.Some? then log[|log| - 1].digest.value
    else LastDigest(log[..|log| - 1], pid)
  }

  /** The bval of the last record of partition `pid`. */
  function LastBval(log: seq<Taken>, pid: nat): Option<int64> {
    if log == [] then None
    else if log[|log| - 1].pid == pid then log[|log| - 1].bval
    else LastBval(log[..|log| - 1], pid)
  }

  /** Entry i keeps id i and holds what was last consumed from partition `begin + i`. */
  ghost predicate TableMatches(pf: PartitionFilter, log: seq<Taken>) {
    && |pf.partitions| == PARTITIONS
    && forall i :: 0 <= i < PARTITIONS ==>
         pf.partitions[i] == PartitionStatus(LastBval(log, pf.begin + i), i, false, LastDigest(log, pf.begin + i))
  }

  /** The records an event prefix delivers: those with a key, in a partition the table covers. */
  function Delivered(h: Hash, who: nat, begin: nat, events: seq<Event>): seq<Taken> {
    if events == [] then [] else
    var init := Delivered(h, who, begin, events[..|events| - 1]);
    var item := ItemOf(h, events[|events| - 1]);
    if item.Keyed? && begin <= item.pid then init + [TakenFrom(who, item)] else init
  }

  function TakenBy(log: seq<Taken>, who: nat): seq<Taken> {
    if log == [] then [] else
    var init := TakenBy(log[..|log| - 1], who);
    if log[|log| - 1].who == who then init + [log[|log| - 1]] else init
  }

  /** How many of the events are errors or faults. */
  function Troubles(events: seq<Event>): nat {
    if events == [] then 0
    else Troubles(events[..|events| - 1]) + if Trouble(events[|events| - 1]) then 1 else 0
  }

  /** Of the events session `i` has consumed it has delivered exactly the records, and thrown exactly once
      for each error or fault. */
  ghost predicate Conserved(h: Hash, s: System, i: nat)
    requires i < |s.sessions|
  {
    var ss := s.sessions[i];
    && ss.consumed <= |ss.events|
    && (ss.stream.Some? ==> ss.stream.value == ss.events[ss.consumed..])
    && TakenBy(s.log, i) == Delivered(h, i, s.pf.begin, ss.events[..ss.consumed])
    && ss.thrown == Troubles(ss.events[..ss.consumed])
  }

  /** A digest carried by a record determines the partition it was booked under. */
  predicate DigestFits(t: Taken) {
    t.digest.Some? ==> |t.digest.value| >= 4 && PartitionOfDigest(t.digest.value) == t.pid
  }

  ghost predicate Inv(h: Hash, s: System) {
    && (if s.sessions == [] then s.pf.partitions == [] && s.log == [] else TableMatches(s.pf, s.log))
    && (forall t | t in s.log :: t.who < |s.sessions| && s.pf.begin <= t.pid < PARTITIONS && DigestFits(t))
    && forall i | 0 <= i < |s.sessions| :: Conserved(h, s, i)
  }

  // ----- Proofs -----

  lemma {:induction false} NotTaken(log: seq<Taken>, who: nat)
    requires forall t | t in log :: t.who != who
    ensures TakenBy(log, who) == []
  {
    if log != [] {
      NotTaken(log[..|log| - 1], who);
    }
  }

  lemma {:induction false} ActKeepsInv(h: Hash, s: System, a: Action)
    requires Inv(h, s)
    ensures Inv(h, Act(h, s, a))
  {
    match a
    case Open(events) =>
      NotTaken(s.log, |s.sessions|);
      forall j | 0 <= j < |Act(h, s, a).sessions| ensures Conserved(h, Act(h, s, a), j) {
        assert j < |s.sessions| ==> Conserved(h, s, j);
      }
    case Close(i) =>
      forall j | 0 <= j < |s.sessions| ensures Conserved(h, Act(h, s, a), j) { assert Conserved(h, s, j); }
    case Fetch(i) =>
      if !s.crashed && i < |s.sessions| && s.sessions[i].stream.Some? && s.sessions[i].stream.value != [] {
        FetchKeepsInv(h, s, i);
      } else {
        forall j | 0 <= j < |s.sessions| ensures Conserved(h, Act(h, s, a), j) { assert Conserved(h, s, j); }
      }
  }

  lemma {:induction false} FetchKeepsInv(h: Hash, s: System, i: nat)
    requires Inv(h, s) && !s.crashed
    requires i < |s.sessions| && s.sessions[i].stream.Some? && s.sessions[i].stream.value != []
    ensures Inv(h, Act(h, s, Fetch(i)))
  {
    var s' := Act(h, s, Fetch(i));
    FetchKeepsTable(h, s, i);
    forall j | 0 <= j < |s'.sessions|
      ensures Conserved(h, s', j)
    {
      assert Conserved(h, s, j);
      FetchConserves(h, s, i, j);
    }
  }

  /** The log after fetching an event. */
  function Logged(h: Hash, s: System, i: nat, e: Event): seq<Taken> {
    var item := ItemOf(h, e);
    if item.Keyed? && HasEntry(s.pf, item.pid) then s.log + [TakenFrom(i, item)] else s.log
  }

  lemma FetchKeepsTable(h: Hash, s: System, i: nat)
    requires Inv(h, s) && !s.crashed
    requires i < |s.sessions| && s.sessions[i].stream.Some? && s.sessions[i].stream.value != []
    ensures var s' := Act(h, s, Fetch(i));
      && TableMatches(s'.pf, s'.log) && s'.pf.begin == s.pf.begin && |s'.sessions| == |s.sessions|
      && forall t | t in s'.log :: t.who < |s.sessions| && s.pf.begin <= t.pid < PARTITIONS && DigestFits(t)
  {
    var item := ItemOf(h, s.sessions[i].stream.value[0]);
    if item.Keyed? && HasEntry(s.pf, item.pid) {
      AdvanceMatches(s.pf, s.log, TakenFrom(i, item));
    }
  }

  lemma FetchConserves(h: Hash, s: System, i: nat, j: nat)
    requires |s.pf.partitions| == PARTITIONS && !s.crashed && i < |s.sessions| && j < |s.sessions|
    requires s.sessions[i].stream.Some? && s.sessions[i].stream.value != []
    requires Conserved(h, s, j)
    ensures |Act(h, s, Fetch(i)).sessions| == |s.sessions| && Conserved(h, Act(h, s, Fetch(i)), j)
  {
    var s', ss := Act(h, s, Fetch(i)), s.sessions[i];
    var e := ss.stream.value[0];
    assert s'.log == Logged(h, s, i, e) && s'.pf.begin == s.pf.begin;
    if s'.log != s.log {
      TakenSnoc(s.log, TakenFrom(i, ItemOf(h, e)), j);
    }
    if j == i {
      assert e == ss.events[ss.consumed];
      DeliveredNext(h, i, s.pf.begin, ss.events, ss.consumed);
      TroublesNext(ss.events, ss.consumed);
      NextMeans(h, s.pf, ss.stream);
    }
  }

  lemma TakenSnoc(log: seq<Taken>, t: Taken, who: nat)
    ensures TakenBy(log + [t], who) == TakenBy(log, who) + if t.who == who then [t] else []
  {
    assert (log + [t])[..|log|] == log;
  }

  lemma DeliveredNext(h: Hash, who: nat, begin: nat, events: seq<Event>, n: nat)
    requires n < |events|
    ensures var item := ItemOf(h, events[n]);
      Delivered(h, who, begin, events[..n + 1])
      == Delivered(h, who, begin, events[..n])
         + if item.Keyed? && begin <= item.pid then [TakenFrom(who, item)] else []
  {
    assert events[..n + 1][..n] == events[..n];
  }

  lemma TroublesNext(events: seq<Event>, n: nat)
    requires n < |events|
    ensures Troubles(events[..n + 1]) == Troubles(events[..n]) + if Trouble(events[n]) then 1 else 0
  {
    assert events[..n + 1][..n] == events[..n];
  }

  lemma {:induction false} AdvanceMatches(pf: PartitionFilter, log: seq<Taken>, t: Taken)
    requires TableMatches(pf, log) && HasEntry(pf, t.pid)
    ensures TableMatches(Advance(pf, t.pid, t.digest, t.bval), log + [t])
  {
    assert (log + [t])[..|log|] == log;
  }

  /** The shared table refines the last-write fold, through every interleaving: initialising never
      erases progress, and the records handed to PHP by each recordset are exactly the keyed records
      of the events it consumed, in order. */
  lemma {:induction false} SharedCursor(h: Hash, begin: nat, count: nat, acts: seq<Action>)
    ensures Inv(h, Run(h, Start(begin, count), acts))
    ensures Run(h, Start(begin, count), acts).pf.begin == begin
  {
    if acts != [] {
      SharedCursor(h, begin, count, acts[..|acts| - 1]);
      ActKeepsInv(h, Run(h, Start(begin, count), acts[..|acts| - 1]), acts[|acts| - 1]);
    }
  }

  /** Closing a recordset closes it and nothing else. */
  lemma CloseCloses(h: Hash, s: System, i: nat)
    requires !s.crashed && i < |s.sessions|
    ensures var s' := Act(h, s, Close(i));
      && s'.pf == s.pf && s'.log == s.log && !s'.crashed && |s'.sessions| == |s.sessions|
      && s'.sessions[i].stream.None?
      && forall j | 0 <= j < |s.sessions| && j != i :: s'.sessions[j] == s.sessions[j]
  {
  }

  /** In every run a recordset has thrown exactly once for each error or fault among the events it has
      consumed. */
  lemma ThrownOnce(h: Hash, begin: nat, count: nat, acts: seq<Action>, i: nat)
    requires i < |Run(h, Start(begin, count), acts).sessions|
    ensures var ss := Run(h, Start(begin, count), acts).sessions[i];
      ss.consumed <= |ss.events| && ss.thrown == Troubles(ss.events[..ss.consumed])
  {
    SharedCursor(h, begin, count, acts);
    assert Conserved(h, Run(h, Start(begin, count), acts), i);
  }

  /** A closed recordset stays closed and delivers nothing more, whatever else happens. */
  lemma {:induction false} ClosedForGood(h: Hash, s: System, acts: seq<Action>, i: nat)
    requires i < |s.sessions| && s.sessions[i].stream.None?
    ensures i < |Run(h, s, acts).sessions| && Run(h, s, acts).sessions[i] == s.sessions[i]
    ensures TakenBy(Run(h, s, acts).log, i) == TakenBy(s.log, i)
  {
    if acts != [] {
      ClosedForGood(h, s, acts[..|acts| - 1], i);
      StaysClosed(h, Run(h, s, acts[..|acts| - 1]), acts[|acts| - 1], i);
    }
  }

  lemma StaysClosed(h: Hash, s: System, a: Action, i: nat)
    requires i < |s.sessions| && s.sessions[i].stream.None?
    ensures i < |Act(h, s, a).sessions| && Act(h, s, a).sessions[i] == s.sessions[i]
    ensures TakenBy(Act(h, s, a).log, i) == TakenBy(s.log, i)
  {
    var s' := Act(h, s, a);
    assert |s'.log| > |s.log| ==> s'.log[..|s.log|] == s.log;
  }

  /** Once the table is filled, `next` panics only on a record whose partition cannot be computed or
      lies before the filter's range: a partition id at or above `begin` is always inside the table. */
  lemma NextPanics(h: Hash, s: System, i: nat)
    requires Inv(h, s) && i < |s.sessions|
    requires s.sessions[i].stream.Some? && s.sessions[i].stream.value != []
    ensures var item := ItemOf(h, s.sessions[i].stream.value[0]);
      NextStep(h, s.pf, s.sessions[i].stream).out.Panicked? <==>
      item.Crash? || (item.Keyed? && item.pid < s.pf.begin)
  {
    assert |s.pf.partitions| == PARTITIONS;
    var item := ItemOf(h, s.sessions[i].stream.value[0]);
    assert item.Keyed? ==> item.pid < PARTITIONS;
  }

  // ----- Two recordsets on the heap -----

  lemma RunMore(h: Hash, s: System, acts: seq<Action>, a: Action)
    ensures Run(h, s, acts + [a]) == Act(h, Run(h, s, acts), a)
  {
    assert (acts + [a])[..|acts|] == acts;
  }

  lemma RunFour(h: Hash, s: System, a: Action, b: Action, c: Action, d: Action)
    ensures Run(h, s, [a, b, c, d]) == Act(h, Act(h, Act(h, Act(h, s, a), b), c), d)
  {
    assert [] + [a] == [a] && [a] + [b] == [a, b] && [a, b] + [c] == [a, b, c] && [a, b, c] + [d] == [a, b, c, d];
    RunMore(h, s, [], a);
    RunMore(h, s, [a], b);
    RunMore(h, s, [a, b], c);
    RunMore(h, s, [a, b, c], d);
  }

  /** Two scans through one shared filter, and one record read from each, the newer first: the objects go
      through the states of the run. A panic ends the request. */
  method ReadBoth(h: Hash, filter: SharedFilter, serve: PartitionFilter -> seq<Event>)
    returns (a: Recordset, b: Recordset, second: Next, first: Next)
    modifies filter
    ensures fresh(a) && fresh(b) && a != b && a.filter == filter && b.filter == filter
    ensures var pf := old(filter.pf);
      var s := Run(h, System(pf, [], [], false),
                   [Open(serve(pf)), Open(serve(Initialised(pf))), Fetch(1), Fetch(0)]);
      && filter.pf == s.pf && |s.sessions| == 2
      && a.stream == s.sessions[0].stream && b.stream == s.sessions[1].stream
      && (s.crashed <==> second.Panicked? || first.Panicked?)
      && (second.Thrown? <==> s.sessions[1].thrown == 1) && (first.Thrown? <==> s.sessions[0].thrown == 1)
  {
    ghost var s0 := System(filter.pf, [], [], false);
    ghost var e, e' := serve(filter.pf), serve(Initialised(filter.pf));
    RunFour(h, s0, Open(e), Open(e'), Fetch(1), Fetch(0));
    ghost var s2 := Act(h, Act(h, s0, Open(e)), Open(e'));
    var ra := Scan(filter, pf => Some(serve(pf)));
    var rb := Scan(filter, pf => Some(serve(pf)));
    a, b := ra.value, rb.value;
    assert s2.pf == filter.pf && s2.sessions[0].stream == a.stream && s2.sessions[1].stream == b.stream;
    second := b.Next(h);
    if second.Panicked? {
      return a, b, second, Nothing;
    }
    first := a.Next(h);
  }
}
