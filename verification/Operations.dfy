/** Record operations and keys on their way into the Go client: `toOp`, `toOps`, `toKey` and their
    arguments (aerospike-connection-manager/kvs.go), and the builders of operations (src/lib.rs). */
module Operations {
  import opened Basics
  import opened Wire
  import P = PhpCodec
  import G = GoCodec
  import T = Translation

  // ----- Messages -----

  datatype OperationType = Get | GetHeader | Put | Add | Append | Prepend | Touch | Delete | OtherType(code: int)

  datatype Context = Context(id: int, value: Option<Value>)

  /** A record operation. Of the list, map, HLL and bitwise operations only the map's create command is
      spelled out; the others are in serialised form. */
  datatype Operation =
    | Std(opType: OperationType, binName: Option<Text>, binValue: Option<Value>)
    | MapCreate(bin: Text, args: seq<Value>, ctx: seq<Context>)
    | OtherCdt(serialised: seq<byte>)
    | Unset

  /** `CdtMapOperation::create` */
  function NewMapCreate(bin: Text, ctx: seq<Context>): Operation {
    MapCreate(bin, [], ctx)
  }

  // ----- What Go makes of them -----

  datatype GoContext = GoContext(id: int, value: G.GoAny)

  datatype GoOp =
    | GetOp
    | GetBinOp(bin: Text)
    | GetHeaderOp
    | PutOp(bin: Text, value: G.GoAny)
    | AddOp(bin: Text, value: G.GoAny)
    | AppendOp(bin: Text, value: G.GoAny)
    | PrependOp(bin: Text, value: G.GoAny)
    | TouchOp
    | DeleteOp
    | MapCreateOp(bin: Text, order: int, ctx: seq<GoContext>)
    | OtherCdtOp(converted: seq<byte>)

  datatype GoKey = GoKey(namespace: Text, set_: Text, value: G.GoAny)

  /** What is left open: which values the Go client's `NewKey` accepts, and the conversion of the
      operations that are kept in serialised form. */
  datatype Client = Client(acceptsKey: G.GoAny -> bool, toCdt: seq<byte> -> Outcome<seq<byte>>)

  /** The wire code of the map order; any value but an integer reads as 0. */
  function GetI(w: Value): int {
    if w.v.Some? && w.v.value.IntV? then w.v.value.i else 0
  }

  /** Writes a bin: panics without a name. */
  function ToBinOp(name: Option<Text>, value: Option<Value>, make: (Text, G.GoAny) -> GoOp): Outcome<GoOp> {
    var g := G.ToOptionalValue(value);
    if name.Some? && g.Ok? then Ok(make(name.value, g.value)) else Panic
  }

  function ToStdOp(opType: OperationType, name: Option<Text>, value: Option<Value>): Outcome<GoOp> {
    match opType
    case Get => Ok(if name.Some? then GetBinOp(name.value) else GetOp)
    case GetHeader => Ok(GetHeaderOp)
    case Put => ToBinOp(name, value, (n, g) => PutOp(n, g))
    case Add => ToBinOp(name, value, (n, g) => AddOp(n, g))
    case Append => ToBinOp(name, value, (n, g) => AppendOp(n, g))
    case Prepend => ToBinOp(name, value, (n, g) => PrependOp(n, g))
    case Touch => Ok(TouchOp)
    case Delete => Ok(DeleteOp)
    case OtherType(_) => Panic
  }

  function ToContexts(ctx: seq<Context>): Outcome<seq<GoContext>> {
    if ctx == [] then Ok([]) else
    var init, last := ToContexts(ctx[..|ctx| - 1]), ctx[|ctx| - 1];
    var g := G.ToOptionalValue(last.value);
    if init.Ok? && g.Ok? then Ok(init.value + [GoContext(last.id, g.value)]) else Panic
  }

  /** `toOp`; creating a map reads the order from the first argument. */
  function ToOp(c: Client, op: Operation): Outcome<GoOp> {
    match op
    case Std(opType, name, value) => ToStdOp(opType, name, value)
    case MapCreate(bin, args, ctx) =>
      if args == [] || !(0 <= GetI(args[0]) <= 2) then Panic else
      var gs := ToContexts(ctx);
      if gs.Ok? then Ok(MapCreateOp(bin, GetI(args[0]), gs.value)) else Panic
    case OtherCdt(s) =>
      var g := c.toCdt(s);
      if g.Ok? then Ok(OtherCdtOp(g.value)) else Panic
    case Unset => Panic
  }

  function ToOps(c: Client, ops: seq<Operation>): Outcome<seq<GoOp>> {
    if ops == [] then Ok([]) else
    var init, last := ToOps(c, ops[..|ops| - 1]), ToOp(c, ops[|ops| - 1]);
    if init.Ok? && last.Ok? then Ok(init.value + [last.value]) else Panic
  }

  /** `toOps` as the source runs it, appending one operation after the other. */
  method ToOpsLoop(c: Client, ops: seq<Operation>) returns (res: Outcome<seq<GoOp>>)
    ensures res == ToOps(c, ops)
  {
    res := Ok([]);
    for i := 0 to |ops|
      invariant res == ToOps(c, ops[..i])
    {
      assert ops[..i + 1][..i] == ops[..i];
      var g := ToOp(c, ops[i]);
      res := if res.Ok? && g.Ok? then Ok(res.value + [g.value]) else Panic;
    }
    assert ops[..|ops|] == ops;
  }

  /** `toKey`: the stored digest is dropped; a value that `NewKey` rejects panics. */
  function ToKey(c: Client, key: Key): Outcome<GoKey> {
    var g := G.ToOptionalValue(key.value);
    if g.Panic? || !c.acceptsKey(g.value) then Panic else
    Ok(GoKey(if key.namespace.Some? then key.namespace.value else [],
             if key.set_.Some? then key.set_.value else [], g.value))
  }

  // ----- When they convert -----

  ghost predicate KeyConverts(c: Client, key: Key) {
    var g := G.ToOptionalValue(key.value);
    T.OptionalConvertible(key.value) && (g.Ok? ==> c.acceptsKey(g.value))
  }

  /** A bin operation has a name and a convertible value; creating a map has a first argument that reads as
      0, 1 or 2, and convertible context values. */
  ghost predicate OpConverts(c: Client, op: Operation) {
    match op
    case Std(opType, name, value) =>
      && !opType.OtherType?
      && (opType.Put? || opType.Add? || opType.Append? || opType.Prepend?
          ==> name.Some? && T.OptionalConvertible(value))
    case MapCreate(_, args, ctx) =>
      && args != [] && (CodeOf(args[0], 0) || CodeOf(args[0], 1) || CodeOf(args[0], 2))
      && forall i | 0 <= i < |ctx| :: T.OptionalConvertible(ctx[i].value)
    case OtherCdt(s) => c.toCdt(s).Ok?
    case Unset => false
  }

  lemma OptionalTotal(w: Option<Value>)
    ensures G.ToOptionalValue(w).Ok? <==> T.OptionalConvertible(w)
  {
    if w.Some? {
      T.ToValueTotal(w.value);
    }
  }

  lemma {:induction false} ContextsTotal(ctx: seq<Context>)
    ensures ToContexts(ctx).Ok? <==> forall i | 0 <= i < |ctx| :: T.OptionalConvertible(ctx[i].value)
    ensures ToContexts(ctx).Ok? ==>
              && |ToContexts(ctx).value| == |ctx|
              && forall i | 0 <= i < |ctx| :: ContextKept(ctx[i], ToContexts(ctx).value[i])
  {
    if ctx != [] {
      var init, last := ctx[..|ctx| - 1], ctx[|ctx| - 1];
      ContextsTotal(init);
      OptionalTotal(last.value);
      ValueArrives(last.value);
      assert forall i | 0 <= i < |init| :: init[i] == ctx[i];
    }
  }

  /** An operation converts exactly under that condition, and then it arrives as the same operation. */
  lemma OpArrives(c: Client, op: Operation)
    ensures ToOp(c, op).Ok? <==> OpConverts(c, op)
    ensures ToOp(c, op).Ok? ==> OpKept(c, op, ToOp(c, op).value)
  {
    match op
    case Std(_, _, value) =>
      OptionalTotal(value);
      ValueArrives(value);
    case MapCreate(_, _, ctx) => ContextsTotal(ctx);
    case _ =>
  }

  lemma {:induction false} OpsArrive(c: Client, ops: seq<Operation>)
    ensures ToOps(c, ops).Ok? <==> forall i | 0 <= i < |ops| :: OpConverts(c, ops[i])
    ensures ToOps(c, ops).Ok? ==> OpsKept(c, ops, ToOps(c, ops).value)
  {
    if ops != [] {
      var init, last := ops[..|ops| - 1], ops[|ops| - 1];
      OpsArrive(c, init);
      OpArrives(c, last);
      assert forall i | 0 <= i < |init| :: init[i] == ops[i];
    }
  }

  // ----- What arrives -----

  /** A missing value arrives as null, and the encoding of a `PHPValue` as a value of its meaning. */
  ghost predicate ValueKept(w: Option<Value>, g: G.GoAny) {
    if w.None? then g == G.Scalar(G.NullValue)
    else forall v | P.Encodes(v, w.value) && P.KeysStayDistinct(v) :: G.Meaning(g) == P.Normalise(v)
  }

  ghost predicate ContextKept(x: Context, g: GoContext) {
    g.id == x.id && ValueKept(x.value, g.value)
  }

  ghost predicate KeyKept(key: Key, g: GoKey) {
    && g.namespace == (match key.namespace case Some(namespace) => namespace case None => [])
    && g.set_ == (match key.set_ case Some(set_) => set_ case None => [])
    && ValueKept(key.value, g.value)
  }

  /** An integer is its own code, any other value has code 0. */
  ghost predicate CodeOf(w: Value, code: int) {
    (forall i :: w == Value(Some(IntV(i))) ==> code == i) && ((forall i :: w != Value(Some(IntV(i)))) ==> code == 0)
  }

  ghost predicate BinKept(op: Operation, opType: OperationType, bin: Text, value: G.GoAny) {
    op.Std? && op.opType == opType && op.binName == Some(bin) && ValueKept(op.binValue, value)
  }

  /** `g` is the operation `op`, on the same bin and with a value of the same meaning. */
  ghost predicate OpKept(c: Client, op: Operation, g: GoOp) {
    match g
    case GetOp => op.Std? && op.opType.Get? && op.binName.None?
    case GetBinOp(bin) => op.Std? && op.opType.Get? && op.binName == Some(bin)
    case GetHeaderOp => op.Std? && op.opType.GetHeader?
    case PutOp(bin, value) => BinKept(op, Put, bin, value)
    case AddOp(bin, value) => BinKept(op, Add, bin, value)
    case AppendOp(bin, value) => BinKept(op, Append, bin, value)
    case PrependOp(bin, value) => BinKept(op, Prepend, bin, value)
    case TouchOp => op.Std? && op.opType.Touch?
    case DeleteOp => op.Std? && op.opType.Delete?
    case MapCreateOp(bin, order, ctx) =>
      && op.MapCreate? && op.bin == bin && op.args != [] && CodeOf(op.args[0], order)
      && |ctx| == |op.ctx| && forall i | 0 <= i < |ctx| :: ContextKept(op.ctx[i], ctx[i])
    case OtherCdtOp(converted) => op.OtherCdt? && c.toCdt(op.serialised) == Ok(converted)
  }

  ghost predicate OpsKept(c: Client, ops: seq<Operation>, gs: seq<GoOp>) {
    |gs| == |ops| && forall i | 0 <= i < |ops| :: OpKept(c, ops[i], gs[i])
  }

  lemma ValueArrives(w: Option<Value>)
    ensures G.ToOptionalValue(w).Ok? ==> ValueKept(w, G.ToOptionalValue(w).value)
  {
    if w.Some? && G.ToValue(w.value).Ok? {
      forall v | P.Encodes(v, w.value) && P.KeysStayDistinct(v)
        ensures G.Meaning(G.ToValue(w.value).value) == P.Normalise(v)
      {
        T.LiteralMeans(v, w.value);
      }
    }
  }

  lemma KeyArrives(c: Client, key: Key)
    ensures ToKey(c, key).Ok? <==> KeyConverts(c, key)
    ensures ToKey(c, key).Ok? ==> KeyKept(key, ToKey(c, key).value)
  {
    OptionalTotal(key.value);
    ValueArrives(key.value);
  }

  /** Function arguments: `toValues`. */
  lemma ArgsArrive(args: seq<Value>)
    ensures G.ToList(args).Ok? <==> forall i | 0 <= i < |args| :: T.Convertible(args[i])
    ensures G.ToList(args).Ok? ==> ArgsKept(args, G.ToList(args).value)
  {
    G.ToListTotal(args);
    forall i | 0 <= i < |args| ensures G.ToValue(args[i]).Ok? <==> T.Convertible(args[i]) {
      T.ToValueTotal(args[i]);
    }
    if G.ToList(args).Ok? {
      G.ToListAt(args);
      forall i | 0 <= i < |args| ensures ValueKept(Some(args[i]), G.ToList(args).value[i]) {
        ValueArrives(Some(args[i]));
      }
    }
  }

  ghost predicate ArgsKept(args: seq<Value>, gs: seq<G.GoAny>) {
    |gs| == |args| && forall i | 0 <= i < |args| :: ValueKept(Some(args[i]), gs[i])
  }
}
