/** Batch commands: from the PHP command list through the request to the Go client's commands
    (src/lib.rs, aerospike-connection-manager/kvs.go). */
module Batches {
  import opened Basics
  import opened Wire
  import opened Operations
  import P = PhpCodec
  import G = GoCodec
  import T = Translation
  import A = PhpArray
  import W = WriteRead

  /** The policy of a command: its filter expression and the fields that are copied as they are. */
  datatype Policy = Policy(filter: Option<Expression>, settings: seq<byte>)

  datatype GoPolicy = GoPolicy(filter: Option<T.GoExp>, settings: seq<byte>)

  /** A value of the PHP command list; a batch read is made by its constructor with or without bins, from
      operations, or for the header only. */
  datatype Command =
    | ReadBins(key: Key, policy: Policy, bins: Option<seq<Text>>)
    | ReadOps(key: Key, policy: Policy, ops: seq<Operation>)
    | ReadHeader(key: Key, policy: Policy)
    | Write(key: Key, policy: Policy, ops: seq<Operation>)
    | Delete(key: Key, policy: Policy)
    | Udf(key: Key, policy: Policy, package: Text, function_: Text, args: seq<Value>)
    | Invalid

  datatype BatchRead = BatchRead(
    key: Key,
    policy: Policy,
    binNames: seq<Text>,
    readAllBins: bool,
    ops: seq<Operation>
  )
  datatype BatchWrite = BatchWrite(key: Key, policy: Policy, ops: seq<Operation>)
  datatype BatchDelete = BatchDelete(key: Key, policy: Policy)
  datatype BatchUdf = BatchUdf(
    key: Key,
    policy: Policy,
    packageName: Text,
    functionName: Text,
    functionArgs: seq<Value>
  )

  datatype BatchOperate = BatchOperate(
    br: Option<BatchRead>,
    bw: Option<BatchWrite>,
    bd: Option<BatchDelete>,
    bu: Option<BatchUdf>
  )

  /** The Go client's commands. `NewRead` with no bin names reads all bins. */
  datatype GoCommand =
    | NewRead(key: GoKey, policy: GoPolicy, binNames: Option<seq<Text>>)
    | NewReadOps(key: GoKey, policy: GoPolicy, ops: seq<GoOp>)
    | NewReadHeader(key: GoKey, policy: GoPolicy)
    | NewWrite(key: GoKey, policy: GoPolicy, ops: seq<GoOp>)
    | NewDelete(key: GoKey, policy: GoPolicy)
    | NewUdf(key: GoKey, policy: GoPolicy, package: Text, function_: Text, args: seq<G.GoAny>)

  const DEFAULT := BatchOperate(None, None, None, None)

  /** The request entry of a valid command. */
  function Entry(c: Command): BatchOperate
    requires !c.Invalid?
  {
    match c
    case ReadBins(key, policy, bins) =>
      DEFAULT.(br := Some(BatchRead(key, policy, if bins.Some? then bins.value else [], bins == Some([]), [])))
    case ReadOps(key, policy, ops) => DEFAULT.(br := Some(BatchRead(key, policy, [], false, ops)))
    case ReadHeader(key, policy) => DEFAULT.(br := Some(BatchRead(key, policy, [], false, [])))
    case Write(key, policy, ops) => DEFAULT.(bw := Some(BatchWrite(key, policy, ops)))
    case Delete(key, policy) => DEFAULT.(bd := Some(BatchDelete(key, policy)))
    case Udf(key, policy, p, f, args) => DEFAULT.(bu := Some(BatchUdf(key, policy, p, f, args)))
  }

  /** `idx` are the places of the valid commands, in order. */
  ghost predicate Picks(cmds: seq<Command>, idx: seq<nat>) {
    && (forall i, j :: 0 <= i < j < |idx| ==> idx[i] < idx[j])
    && (forall i :: 0 <= i < |idx| ==> idx[i] < |cmds| && !cmds[idx[i]].Invalid?)
    && (forall k :: 0 <= k < |cmds| && !cmds[k].Invalid? ==> k in idx)
  }

  /** `Client::batch` up to the call: pushes an entry per valid command, in order, and throws for each
      other one. */
  method Request(cmds: seq<Command>) returns (res: seq<BatchOperate>, thrown: nat, ghost idx: seq<nat>)
    ensures Picks(cmds, idx) && |res| == |idx| && thrown == |cmds| - |idx|
    ensures forall i :: 0 <= i < |idx| ==> res[i] == Entry(cmds[idx[i]])
  {
    res, thrown, idx := [], 0, [];
    for i := 0 to |cmds|
      invariant Picks(cmds[..i], idx) && |res| == |idx| && thrown == i - |idx|
      invariant forall j :: 0 <= j < |idx| ==> res[j] == Entry(cmds[idx[j]])
    {
      if cmds[i].Invalid? {
        thrown := thrown + 1;
        PicksNone(cmds, i, idx);
      } else {
        res := res + [Entry(cmds[i])];
        PicksOne(cmds, i, idx);
        idx := idx + [i];
      }
    }
    assert cmds[..|cmds|] == cmds;
  }

  lemma PicksNone(cmds: seq<Command>, i: nat, idx: seq<nat>)
    requires i < |cmds| && cmds[i].Invalid? && Picks(cmds[..i], idx)
    ensures Picks(cmds[..i + 1], idx)
  {
    assert forall k | 0 <= k < i :: cmds[..i + 1][k] == cmds[..i][k];
  }

  lemma PicksOne(cmds: seq<Command>, i: nat, idx: seq<nat>)
    requires i < |cmds| && !cmds[i].Invalid? && Picks(cmds[..i], idx)
    ensures Picks(cmds[..i + 1], idx + [i])
  {
    assert forall k | 0 <= k < i :: cmds[..i + 1][k] == cmds[..i][k];
    forall k | 0 <= k < i + 1 && !cmds[..i + 1][k].Invalid? ensures k in idx + [i] {
      if k < i {
        assert k in idx;
      } else {
        assert (idx + [i])[|idx|] == k;
      }
    }
  }

  /** The conversion of a policy, whose filter is translated if there is one. */
  function ToPolicy(p: Policy): Outcome<GoPolicy> {
    if p.filter.None? then Ok(GoPolicy(None, p.settings)) else
    var e := T.ToExpression(p.filter.value);
    if e.Ok? then Ok(GoPolicy(Some(e.value), p.settings)) else Panic
  }

  /** The parts of the one command that an entry holds. */
  function PolicyOf(b: BatchOperate): Option<Policy> {
    if b.br.Some? then Some(b.br.value.policy)
    else if b.bw.Some? then Some(b.bw.value.policy)
    else if b.bd.Some? then Some(b.bd.value.policy)
    else if b.bu.Some? then Some(b.bu.value.policy)
    else None
  }

  function KeyOf(b: BatchOperate): Key
    requires b != DEFAULT
  {
    if b.br.Some? then b.br.value.key
    else if b.bw.Some? then b.bw.value.key
    else if b.bd.Some? then b.bd.value.key
    else b.bu.value.key
  }

  /** The operations that are looked at: a read with bin names ignores its own. */
  function OpsOf(b: BatchOperate): seq<Operation> {
    if b.br.Some? then (if b.br.value.binNames == [] then b.br.value.ops else [])
    else if b.bw.Some? then b.bw.value.ops
    else []
  }

  function ArgsOf(b: BatchOperate): seq<Value> {
    if b.br.None? && b.bw.None? && b.bd.None? && b.bu.Some? then b.bu.value.functionArgs else []
  }

  /** `toBatchRecordIfc` */
  function ToGoCommand(c: Client, b: BatchOperate): Outcome<GoCommand> {
    if b == DEFAULT then Panic else
    var policy, key := ToPolicy(PolicyOf(b).value), ToKey(c, KeyOf(b));
    var ops, args := ToOps(c, OpsOf(b)), G.ToList(ArgsOf(b));
    if policy.Panic? || key.Panic? || ops.Panic? || args.Panic? then Panic else
    Ok(if b.br.Some? then
         var r := b.br.value;
         if |r.binNames| > 0 then NewRead(key.value, policy.value, Some(r.binNames))
         else if |r.ops| > 0 then NewReadOps(key.value, policy.value, ops.value)
         else if r.readAllBins then NewRead(key.value, policy.value, None)
         else NewReadHeader(key.value, policy.value)
       else if b.bw.Some? then NewWrite(key.value, policy.value, ops.value)
       else if b.bd.Some? then NewDelete(key.value, policy.value)
       else NewUdf(key.value, policy.value, b.bu.value.packageName, b.bu.value.functionName, args.value))
  }

  // ----- When a command arrives, and as what -----

  /** `g` is what the command `x` asks for: the named bins, all bins for an empty list of names, the
      header for no list, the operations if there are any and the header otherwise, and so on, with
      values of the same meaning. */
  ghost predicate Intended(c: Client, x: Command, g: GoCommand)
    requires !x.Invalid?
  {
    && KeyKept(x.key, g.key) && PolicyKept(x.policy, g.policy)
    && match x
       case ReadBins(_, _, bins) =>
         && (g.NewReadHeader? <==> bins.None?) && (g.NewRead? <==> bins.Some?)
         && (g.NewRead? ==> g.binNames == if bins == Some([]) then None else bins)
       case ReadOps(_, _, ops) => if ops == [] then g.NewReadHeader? else g.NewReadOps? && OpsKept(c, ops, g.ops)
       case ReadHeader(_, _) => g.NewReadHeader?
       case Write(_, _, ops) => g.NewWrite? && OpsKept(c, ops, g.ops)
       case Delete(_, _) => g.NewDelete?
       case Udf(_, _, p, f, args) => g.NewUdf? && g.package == p && g.function_ == f && ArgsKept(args, g.args)
  }

  /** The settings arrive as they are, and a filter built from a supported tree selects the same records. */
  ghost predicate PolicyKept(p: Policy, g: GoPolicy) {
    && g.settings == p.settings
    && (g.filter.Some? <==> p.filter.Some?)
    && (p.filter.Some? ==> forall e | T.Buildable(e) && T.Translates(e) && T.Supported(e) ::
          T.Builds(e, p.filter.value) ==> T.SameMeaning(e, g.filter.value))
  }

  /** The filter of the policy, if any, is one that Go can translate. */
  ghost predicate FilterTranslates(p: Policy) {
    p.filter.Some? ==> T.Translatable(p.filter.value)
  }

  /** Go can convert the filter, the key, the operations and the arguments of the command. */
  ghost predicate Converts(c: Client, x: Command)
    requires !x.Invalid?
  {
    && FilterTranslates(x.policy) && KeyConverts(c, x.key)
    && (x.ReadOps? || x.Write? ==> forall i | 0 <= i < |x.ops| :: OpConverts(c, x.ops[i]))
    && (x.Udf? ==> forall i | 0 <= i < |x.args| :: T.Convertible(x.args[i]))
  }

  /** The same of a request entry, which must also hold a command. */
  ghost predicate EntryConverts(c: Client, b: BatchOperate) {
    && b != DEFAULT && FilterTranslates(PolicyOf(b).value) && KeyConverts(c, KeyOf(b))
    && (forall i | 0 <= i < |OpsOf(b)| :: OpConverts(c, OpsOf(b)[i]))
    && forall i | 0 <= i < |ArgsOf(b)| :: T.Convertible(ArgsOf(b)[i])
  }

  lemma PolicyArrives(p: Policy)
    ensures ToPolicy(p).Ok? <==> FilterTranslates(p)
    ensures ToPolicy(p).Ok? ==> PolicyKept(p, ToPolicy(p).value)
  {
    if p.filter.Some? {
      var w := p.filter.value;
      T.TranslationTotal(w);
      forall e | T.Buildable(e) && T.Translates(e) && T.Supported(e) && T.Builds(e, w)
        ensures T.ToExpression(w).Ok? && T.SameMeaning(e, T.ToExpression(w).value)
      {
        T.MeaningPreserved(e, w);
      }
    }
  }

  lemma EntryTotal(c: Client, b: BatchOperate)
    ensures ToGoCommand(c, b).Ok? <==> EntryConverts(c, b)
  {
    if b != DEFAULT {
      PolicyArrives(PolicyOf(b).value);
      KeyArrives(c, KeyOf(b));
      OpsArrive(c, OpsOf(b));
      ArgsArrive(ArgsOf(b));
    }
  }

  lemma EntryOf(c: Client, x: Command)
    requires !x.Invalid?
    ensures EntryConverts(c, Entry(x)) <==> Converts(c, x)
  {
    EntryParts(x);
    var b := Entry(x);
    var ops, args := if x.ReadOps? || x.Write? then x.ops else [], if x.Udf? then x.args else [];
    assert EntryConverts(c, b) <==>
      && FilterTranslates(x.policy) && KeyConverts(c, x.key)
      && (forall i | 0 <= i < |ops| :: OpConverts(c, ops[i]))
      && forall i | 0 <= i < |args| :: T.Convertible(args[i]);
  }

  lemma EntryParts(x: Command)
    requires !x.Invalid?
    ensures Entry(x) != DEFAULT && PolicyOf(Entry(x)) == Some(x.policy) && KeyOf(Entry(x)) == x.key
    ensures OpsOf(Entry(x)) == if x.ReadOps? || x.Write? then x.ops else []
    ensures ArgsOf(Entry(x)) == if x.Udf? then x.args else []
  {
  }

  lemma EntryIntended(c: Client, x: Command)
    requires !x.Invalid? && ToGoCommand(c, Entry(x)).Ok?
    ensures Intended(c, x, ToGoCommand(c, Entry(x)).value)
  {
    EntryParts(x);
    PolicyArrives(x.policy);
    KeyArrives(c, x.key);
    OpsArrive(c, OpsOf(Entry(x)));
    ArgsArrive(ArgsOf(Entry(x)));
  }

  /** `toBatchRecords`: one command per entry, in order. It panics exactly on an entry with nothing set or
      with a part that cannot be converted. */
  method ToBatchRecords(c: Client, request: seq<BatchOperate>) returns (res: Outcome<seq<GoCommand>>)
    ensures res.Ok? <==> forall i | 0 <= i < |request| :: EntryConverts(c, request[i])
    ensures res.Ok? ==> |res.value| == |request|
    ensures res.Ok? ==> forall i | 0 <= i < |request| :: ToGoCommand(c, request[i]) == Ok(res.value[i])
  {
    var gs: seq<GoCommand> := [];
    for i := 0 to |request|
      invariant |gs| == i
      invariant forall j | 0 <= j < i :: EntryConverts(c, request[j]) && ToGoCommand(c, request[j]) == Ok(gs[j])
    {
      EntryTotal(c, request[i]);
      var g := ToGoCommand(c, request[i]);
      if g.Panic? {
        return Panic;
      }
      gs := gs + [g.value];
    }
    res := Ok(gs);
  }

  /** From the PHP list to Go: every valid command, in order, arrives as the command it intends, exactly if
      Go can convert the filter, the key, the operations and the arguments of each. */
  method EndToEnd(c: Client, cmds: seq<Command>) returns (res: Outcome<seq<GoCommand>>, ghost idx: seq<nat>)
    ensures Picks(cmds, idx)
    ensures res.Ok? <==> forall k :: 0 <= k < |cmds| && !cmds[k].Invalid? ==> Converts(c, cmds[k])
    ensures res.Ok? ==> |res.value| == |idx|
    ensures res.Ok? ==> forall i :: 0 <= i < |idx| ==> Intended(c, cmds[idx[i]], res.value[i])
  {
    var request, _, places := Request(cmds);
    idx := places;
    forall i | 0 <= i < |idx|
      ensures EntryConverts(c, request[i]) <==> Converts(c, cmds[idx[i]])
      ensures ToGoCommand(c, request[i]).Ok? ==> Intended(c, cmds[idx[i]], ToGoCommand(c, request[i]).value)
    {
      EntryOf(c, cmds[idx[i]]);
      if ToGoCommand(c, request[i]).Ok? {
        EntryIntended(c, cmds[idx[i]]);
      }
    }
    res := ToBatchRecords(c, request);
    if res.Panic? {
      ghost var i :| 0 <= i < |request| && !EntryConverts(c, request[i]);
      assert !Converts(c, cmds[idx[i]]);
    } else {
      forall k | 0 <= k < |cmds| && !cmds[k].Invalid? ensures Converts(c, cmds[k]) {
        var i :| 0 <= i < |idx| && idx[i] == k;
        assert EntryConverts(c, request[i]);
      }
    }
  }

  // ----- Commands that do not arrive -----

  /** Creating a map: the extension builds the operation without arguments, and Go reads the first. A
      batch with a write that holds it fails, whatever else it holds. */
  lemma MapCreateFails(c: Client, key: Key, policy: Policy, ops: seq<Operation>, bin: Text, ctx: seq<Context>)
    requires NewMapCreate(bin, ctx) in ops
    ensures !Converts(c, Write(key, policy, ops))
    ensures ToGoCommand(c, Entry(Write(key, policy, ops))).Panic?
  {
    var i :| 0 <= i < |ops| && ops[i] == NewMapCreate(bin, ctx);
    assert !OpConverts(c, ops[i]);
    EntryOf(c, Write(key, policy, ops));
    EntryTotal(c, Entry(Write(key, policy, ops)));
  }

  /** For a key made from a PHP value it is only the Go client's `NewKey` that can refuse. */
  lemma PhpKeyConverts(c: Client, z: A.Zval, v: P.PhpValue, namespace: Text, set_: Text, w: Value)
    requires A.FromZval(z) == Ok(Some(v)) && P.Encodes(v, w)
    ensures G.ToValue(w).Ok?
    ensures KeyConverts(c, Key(None, Some(namespace), Some(set_), Some(w))) <==> c.acceptsKey(G.ToValue(w).value)
  {
    W.ConvertedAccepted(z, v, w);
    OptionalTotal(Some(w));
  }
}
