/** From the Rust expression builders through the wire to Go's `toExpression` (src/lib.rs,
    aerospike-connection-manager/kvs.go). */
module Translation {
  import opened Basics
  import opened Wire
  import opened E = Expressions
  import P = PhpCodec
  import G = GoCodec

  type PhpExp = Exp<P.PhpValue>
  type GoExp = Exp<G.GoAny>

  // ----- The builders -----

  /** The code a builder emits; the boolean `xor` builder emits the integer one. */
  function CodeOf(op: Operator): ExpOp {
    match op
    case Unknown => OpUnknown
    case Eq => OpEq
    case Ne => OpNe
    case Gt => OpGt
    case Ge => OpGe
    case Lt => OpLt
    case Le => OpLe
    case Geo => OpGeo
    case And => OpAnd
    case Or => OpOr
    case Not => OpNot
    case Exclusive => OpIntXor
    case Add => OpAdd
    case Sub => OpSub
    case Mul => OpMul
    case Div => OpDiv
    case Pow => OpPow
    case Log => OpLog
    case Mod => OpMod
    case Abs => OpAbs
    case Floor => OpFloor
    case Ceil => OpCeil
    case ToInt => OpToInt
    case ToFloat => OpToFloat
    case IntAnd => OpIntAnd
    case IntOr => OpIntOr
    case IntXor => OpIntXor
    case IntNot => OpIntNot
    case LShift => OpIntLShift
    case RShift => OpIntRShift
    case ARShift => OpIntARShift
    case Count => OpIntCount
    case LScan => OpIntLScan
    case RScan => OpIntRScan
    case Min => OpMin
    case Max => OpMax
    case DeviceSize => OpDeviceSize
    case LastUpdate => OpLastUpdate
    case SinceUpdate => OpSinceUpdate
    case VoidTime => OpVoidTime
    case Ttl => OpTtl
    case SetName => OpSetName
    case KeyExists => OpKeyExists
    case IsTombstone => OpIsTombstone
    case MemorySize => OpMemorySize
    case RecordSize => OpRecordSize
    case Cond => OpCond
    case Let => OpLet
  }

  /** The number of operands a builder takes, unless it takes a list. */
  function Arity(op: Operator): Option<nat> {
    match op
    case Eq => Some(2)
    case Ne => Some(2)
    case Gt => Some(2)
    case Ge => Some(2)
    case Lt => Some(2)
    case Le => Some(2)
    case Geo => Some(2)
    case Pow => Some(2)
    case Log => Some(2)
    case Mod => Some(2)
    case LShift => Some(2)
    case RShift => Some(2)
    case ARShift => Some(2)
    case LScan => Some(2)
    case RScan => Some(2)
    case Not => Some(1)
    case Abs => Some(1)
    case Floor => Some(1)
    case Ceil => Some(1)
    case ToInt => Some(1)
    case ToFloat => Some(1)
    case IntNot => Some(1)
    case Count => Some(1)
    case And => None
    case Or => None
    case Exclusive => None
    case Add => None
    case Sub => None
    case Mul => None
    case Div => None
    case IntAnd => None
    case IntOr => None
    case IntXor => None
    case Min => None
    case Max => None
    case Cond => None
    case Let => None
    case _ => Some(0)
  }

  /** `e` is a tree the builders can make: operands as their signatures say, literals other than
      unsigned, HLL and JSON values (there is no such builder), no builder for the record size. */
  ghost predicate Buildable(e: PhpExp)
  {
    match e
    case Val(v) => !v.UInt? && !v.Hll? && !v.Json?
    case Bin(_, t) => TYPE_BOOL <= t <= TYPE_HLL
    case BinTypeOf(name) => name.Some?
    case KeyOf(t) => TYPE_NIL <= t <= TYPE_HLL
    case DigestModulo(_) => true
    case Regex(pattern, _, bin) => pattern.Some? && Buildable(bin)
    case App(op, args) =>
      && !op.RecordSize?
      && (Arity(op).Some? ==> |args| == Arity(op).value)
      && forall i | 0 <= i < |args| :: Buildable(args[i])
    case Def(_, value) => Buildable(value)
    case Var(name) => name.Some?
    case Missing => false
  }

  /** `w` is a message `Expression::new` makes for the tree `e`; only the iteration order of map
      literals is open. */
  ghost predicate Builds(e: PhpExp, w: Expression)
  {
    match e
    case Val(v) => w == Expression(None, w.val, None, None, None, []) && w.val.Some? && P.Encodes(v, w.val.value)
    case Bin(name, t) => w == Expression(Some(OpBin), TextValue(name), None, None, Some(t), [])
    case BinTypeOf(name) => name.Some? && w == Expression(Some(OpBinType), TextValue(name.value), None, None, None, [])
    case KeyOf(t) => w == Expression(Some(OpKey), IntValue(t), None, None, None, [])
    case DigestModulo(n) => w == Expression(Some(OpDigestModulo), IntValue(n), None, None, None, [])
    case Regex(pattern, flags, bin) =>
      && pattern.Some?
      && w == Expression(Some(OpRegex), TextValue(pattern.value), w.bin, Some(flags), None, [])
      && w.bin.Some? && Builds(bin, w.bin.value)
    case App(op, args) =>
      && w == Expression(Some(CodeOf(op)), None, None, None, None, w.exps)
      && |w.exps| == |args| && forall i | 0 <= i < |args| :: Builds(args[i], w.exps[i])
    case Def(name, value) =>
      && w == Expression(None, TextValue(name), None, None, None, w.exps)
      && |w.exps| == 1 && Builds(value, w.exps[0])
    case Var(name) => name.Some? && w == Expression(Some(OpVar), TextValue(name.value), None, None, None, [])
    case Missing => false
  }

  function TextValue(s: Text): Option<Value> { Some(Value(Some(StrV(s)))) }

  function IntValue(i: int64): Option<Value> { Some(Value(Some(IntV(i)))) }

  // ----- toExpression -----

  /** What the switch in `toExpression` does with a code. `Apply(op, Some(n))` translates the first n
      operands, `Apply(op, None)` all of them; `NoCase` falls out of the switch and panics. */
  datatype Case =
    | Apply(op: Operator, operands: Option<nat>)
    | RegexCase | ModuloCase | KeyCase | BinCase | BinTypeCase | VarCase | QuotedCase
    | NoCase

  function Dispatch(c: ExpOp): Case {
    match c
    case OpUnknown => Apply(Unknown, Some(0))
    case OpEq => Apply(Eq, Some(2))
    case OpNe => Apply(Ne, Some(2))
    case OpGt => Apply(Gt, Some(2))
    case OpGe => Apply(Ge, Some(2))
    case OpLt => Apply(Lt, Some(2))
    case OpLe => Apply(Le, Some(2))
    case OpRegex => RegexCase
    case OpGeo => Apply(Geo, Some(2))
    case OpAnd => Apply(And, None)
    case OpOr => Apply(Or, None)
    case OpNot => Apply(Not, Some(1))
    case OpExclusive => Apply(Exclusive, None)
    case OpAdd => Apply(Add, None)
    case OpSub => Apply(Sub, None)
    case OpMul => Apply(Mul, None)
    case OpDiv => Apply(Div, None)
    case OpPow => Apply(Pow, Some(2))
    case OpLog => Apply(Log, Some(2))
    case OpMod => Apply(Mod, Some(2))
    case OpAbs => Apply(Abs, Some(1))
    case OpFloor => NoCase
    case OpCeil => Apply(Ceil, Some(1))
    case OpToInt => Apply(ToInt, Some(1))
    case OpToFloat => Apply(ToFloat, Some(1))
    case OpIntAnd => Apply(IntAnd, None)
    case OpIntOr => Apply(IntOr, None)
    case OpIntXor => Apply(IntXor, None)
    case OpIntNot => Apply(IntNot, Some(1))
    case OpIntLShift => Apply(LShift, Some(2))
    case OpIntRShift => Apply(RShift, Some(2))
    case OpIntARShift => Apply(ARShift, Some(2))
    case OpIntCount => Apply(Count, Some(1))
    case OpIntLScan => Apply(LScan, Some(2))
    case OpIntRScan => Apply(RScan, Some(2))
    case OpMin => Apply(Min, None)
    case OpMax => Apply(Max, None)
    case OpDigestModulo => ModuloCase
    case OpDeviceSize => Apply(DeviceSize, Some(0))
    case OpLastUpdate => Apply(LastUpdate, Some(0))
    case OpSinceUpdate => Apply(SinceUpdate, Some(0))
    case OpVoidTime => Apply(VoidTime, Some(0))
    case OpTtl => Apply(Ttl, Some(0))
    case OpSetName => Apply(SetName, Some(0))
    case OpKeyExists => Apply(KeyExists, Some(0))
    case OpIsTombstone => Apply(IsTombstone, Some(0))
    case OpMemorySize => Apply(MemorySize, Some(0))
    case OpRecordSize => Apply(RecordSize, Some(0))
    case OpKey => KeyCase
    case OpBin => BinCase
    case OpBinType => BinTypeCase
    case OpCond => Apply(Cond, None)
    case OpVar => VarCase
    case OpLet => Apply(Let, None)
    case OpQuoted => QuotedCase
    case OpCall => NoCase
    case OpOther(_) => NoCase
  }

  /** The text of `toValue(in.Val).String()`, if the value is a string. */
  function Rendered(val: Option<Value>): Outcome<Option<Text>> {
    var g := G.ToOptionalValue(val);
    if g.Panic? then Panic
    else Ok(if g.value.Scalar? && g.value.scalar.StringValue? then Some(g.value.scalar.s) else None)
  }

  /** A message without a code is a literal; HLL and JSON values and empty lists panic. */
  function ToLiteral(val: Option<Value>): Outcome<GoExp> {
    var g := G.ToOptionalValue(val);
    if g.Panic? then Panic
    else if g.value.JsonValue? || (g.value.Scalar? && g.value.scalar.HllValue?) then Panic
    else if g.value.ListValue? && g.value.l == [] then Panic
    else Ok(Val(g.value))
  }

  /** `toExpression` on a possibly missing message. */
  function ToOptionalExp(w: Option<Expression>): Outcome<GoExp>
    decreases w
  {
    if w.None? then Ok(Missing) else ToExpression(w.value)
  }

  function ToExpression(w: Expression): Outcome<GoExp>
    decreases w
  {
    if w.cmd.None? then ToLiteral(w.val) else
    var c := Dispatch(w.cmd.value);
    if c.Apply? then
      var n := if c.operands.Some? then c.operands.value else |w.exps|;
      if n > |w.exps| then Panic else
      var args := ToExpressions(w.exps, n);
      if args.Ok? then Ok(App(c.op, args.value)) else Panic
    else if c.RegexCase? then
      var pattern, bin := Rendered(w.val), ToOptionalExp(w.bin);
      if pattern.Ok? && w.flags.Some? && bin.Ok? then Ok(Regex(pattern.value, w.flags.value, bin.value)) else Panic
    else if c.ModuloCase? then
      if HasInt(w.val) then Ok(DigestModulo(w.val.value.v.value.i)) else Panic
    else if c.KeyCase? then
      if HasInt(w.val) then Ok(KeyOf(w.val.value.v.value.i)) else Panic
    else if c.BinCase? then
      if w.module_.Some? && TYPE_BOOL <= w.module_.value <= TYPE_GEO && HasText(w.val)
      then Ok(Bin(w.val.value.v.value.s, w.module_.value)) else Panic
    else if c.BinTypeCase? then
      var name := Rendered(w.val);
      if name.Ok? then Ok(BinTypeOf(name.value)) else Panic
    else if c.VarCase? then
      var name := Rendered(w.val);
      if name.Ok? then Ok(Var(name.value)) else Panic
    else if c.QuotedCase? then
      var g := G.ToOptionalValue(w.val);
      if g.Ok? then Ok(Val(G.ListValue([g.value]))) else Panic
    else Panic
  }

  predicate HasInt(val: Option<Value>) {
    val.Some? && val.value.v.Some? && val.value.v.value.IntV?
  }

  predicate HasText(val: Option<Value>) {
    val.Some? && val.value.v.Some? && val.value.v.value.StrV?
  }

  /** The translations of the first `n` messages, if all succeed. */
  function ToExpressions(ws: seq<Expression>, n: nat): Outcome<seq<GoExp>>
    requires n <= |ws|
    decreases ws, n
  {
    if n == 0 then Ok([]) else
    var init, last := ToExpressions(ws, n - 1), ToExpression(ws[n - 1]);
    if init.Ok? && last.Ok? then Ok(init.value + [last.value]) else Panic
  }

  /** `toExpressions` as the source runs it, appending one translation after the other. */
  method ToExpressionsLoop(ws: seq<Expression>) returns (res: Outcome<seq<GoExp>>)
    ensures res == ToExpressions(ws, |ws|)
  {
    res := Ok([]);
    for i := 0 to |ws|
      invariant res == ToExpressions(ws, i)
    {
      var e := ToExpression(ws[i]);
      res := if res.Ok? && e.Ok? then Ok(res.value + [e.value]) else Panic;
    }
  }

  lemma {:induction false} ToExpressionsAt(ws: seq<Expression>, n: nat)
    requires n <= |ws|
    ensures ToExpressions(ws, n).Ok? <==> forall i | 0 <= i < n :: ToExpression(ws[i]).Ok?
    ensures ToExpressions(ws, n).Ok? ==>
              |ToExpressions(ws, n).value| == n
              && forall i | 0 <= i < n :: ToExpression(ws[i]) == Ok(ToExpressions(ws, n).value[i])
  {
    if n > 0 {
      ToExpressionsAt(ws, n - 1);
    }
  }

  // ----- Totality on arbitrary messages -----

  /** Every node visited has its code's operands and payload. */
  ghost predicate Translatable(w: Expression)
  {
    if w.cmd.None? then w.val.None? || (Convertible(w.val.value) && LiteralPayload(w.val.value))
    else
      match Dispatch(w.cmd.value)
      case Apply(_, operands) =>
        && (operands.Some? ==> operands.value <= |w.exps|)
        && forall i | 0 <= i < |w.exps| && (operands.Some? ==> i < operands.value) :: Translatable(w.exps[i])
      case RegexCase => OptionalConvertible(w.val) && w.flags.Some? && (w.bin.Some? ==> Translatable(w.bin.value))
      case ModuloCase => HasInt(w.val)
      case KeyCase => HasInt(w.val)
      case BinCase => w.module_.Some? && TYPE_BOOL <= w.module_.value <= TYPE_GEO && HasText(w.val)
      case BinTypeCase => OptionalConvertible(w.val)
      case VarCase => OptionalConvertible(w.val)
      case QuotedCase => OptionalConvertible(w.val)
      case NoCase => false
  }

  predicate LiteralPayload(v: Value)
    requires v.v.Some?
  {
    !v.v.value.HllV? && !v.v.value.JsonV? && v.v.value != ListV([])
  }

  ghost predicate OptionalConvertible(v: Option<Value>) {
    v.Some? ==> Convertible(v.value)
  }

  /** The oneof is set wherever a message is present, and map keys are scalars Go can hash. */
  ghost predicate Convertible(v: Value)
  {
    && v.v.Some?
    && match v.v.value
       case ListV(l) => forall i | 0 <= i < |l| :: Convertible(l[i])
       case MapV(es) =>
         forall i | 0 <= i < |es| ::
           && (es[i].k.Some? ==> Convertible(es[i].k.value) && HashableMessage(es[i].k.value))
           && (es[i].v.Some? ==> Convertible(es[i].v.value))
       case JsonV(es) => forall i | 0 <= i < |es| :: es[i].v.Some? ==> Convertible(es[i].v.value)
       case _ => true
  }

  predicate HashableMessage(v: Value) {
    v.v.Some? && !v.v.value.ListV? && !v.v.value.MapV? && !v.v.value.JsonV? && !v.v.value.BlobV? && !v.v.value.HllV?
  }

  /** `toValue` succeeds exactly on the convertible messages. */
  lemma {:induction false} ToValueTotal(v: Value)
    ensures G.ToValue(v).Ok? <==> Convertible(v)
  {
    if v.v.Some? {
      match v.v.value
      case ListV(l) =>
        forall i | 0 <= i < |l| ensures G.ToValue(l[i]).Ok? <==> Convertible(l[i]) { ToValueTotal(l[i]); }
        G.ToListTotal(l);
      case MapV(es) =>
        forall i | 0 <= i < |es|
          ensures G.ToEntry(es[i]).Ok? <==>
                  && (es[i].k.Some? ==> Convertible(es[i].k.value) && HashableMessage(es[i].k.value))
                  && (es[i].v.Some? ==> Convertible(es[i].v.value))
        {
          if es[i].k.Some? {
            ToValueTotal(es[i].k.value);
          }
          if es[i].v.Some? {
            ToValueTotal(es[i].v.value);
          }
        }
        G.ToMapTotal(es);
      case JsonV(es) =>
        forall i | 0 <= i < |es|
          ensures G.ToJsonEntry(es[i]).Ok? <==> (es[i].v.Some? ==> Convertible(es[i].v.value))
        {
          if es[i].v.Some? {
            ToValueTotal(es[i].v.value);
          }
        }
        G.ToJsonTotal(es);
      case _ =>
    }
  }

  lemma LiteralTotal(val: Option<Value>)
    ensures ToLiteral(val).Ok? <==>
            val.None? || (Convertible(val.value) && LiteralPayload(val.value))
    ensures G.ToOptionalValue(val).Ok? <==> OptionalConvertible(val)
  {
    if val.Some? {
      ToValueTotal(val.value);
      if val.value.v.Some? && val.value.v.value.ListV? && G.ToValue(val.value).Ok? {
        G.ToListAt(val.value.v.value.l);
      }
    }
  }

  /** `toExpression` never fails to terminate, and it returns without panicking exactly on the
      translatable messages. */
  lemma {:induction false} TranslationTotal(w: Expression)
    ensures ToExpression(w).Ok? <==> Translatable(w)
    decreases w
  {
    LiteralTotal(w.val);
    if w.cmd.Some? {
      var c := Dispatch(w.cmd.value);
      if c.Apply? {
        var n := if c.operands.Some? then c.operands.value else |w.exps|;
        if n <= |w.exps| {
          forall i | 0 <= i < n ensures ToExpression(w.exps[i]).Ok? <==> Translatable(w.exps[i]) {
            TranslationTotal(w.exps[i]);
          }
          ToExpressionsAt(w.exps, n);
        }
      } else if c.RegexCase? && w.bin.Some? {
        TranslationTotal(w.bin.value);
      }
    }
  }

  // ----- Which builder trees translate -----

  /** Contains no floor, no HLL bin, no empty list literal and no literal with a non-scalar map key. The
      operand of a definition is not looked at. */
  ghost predicate Translates(e: PhpExp)
  {
    match e
    case Val(v) => G.ScalarKeys(v) && v != P.List([])
    case Bin(_, t) => t != TYPE_HLL
    case Regex(_, _, bin) => Translates(bin)
    case App(op, args) => !op.Floor? && forall i | 0 <= i < |args| :: Translates(args[i])
    case _ => true
  }

  /** A translated operator takes all its operands: the switch undoes the builders' codes, except for
      the boolean `xor`. */
  lemma CodesAgree(op: Operator)
    requires !op.Floor?
    ensures Dispatch(CodeOf(op)) == Apply(if op.Exclusive? then IntXor else op, Arity(op))
  {
    if Arity(op).None? {
      ListCodesAgree(op);
    } else {
      FixedCodesAgree(op);
    }
  }

  lemma ListCodesAgree(op: Operator)
    requires Arity(op).None?
    ensures Dispatch(CodeOf(op)) == Apply(if op.Exclusive? then IntXor else op, None)
  {
  }

  lemma FixedCodesAgree(op: Operator)
    requires Arity(op).Some? && !op.Floor?
    ensures Dispatch(CodeOf(op)) == Apply(op, Arity(op))
  {
    if Arity(op).value == 2 {
      BinaryCodesAgree(op);
    } else {
      assert Dispatch(CodeOf(op)) == Apply(op, Arity(op));
    }
  }

  lemma BinaryCodesAgree(op: Operator)
    requires Arity(op) == Some(2)
    ensures Dispatch(CodeOf(op)) == Apply(op, Some(2))
  {
  }

  lemma LiteralTranslates(v: P.PhpValue, w: Value)
    requires P.Encodes(v, w) && !v.UInt? && !v.Hll? && !v.Json?
    ensures ToLiteral(Some(w)).Ok? <==> G.ScalarKeys(v) && v != P.List([])
    ensures ToLiteral(Some(w)).Ok? ==> G.ToValue(w).Ok? && ToLiteral(Some(w)).value == Val(G.ToValue(w).value)
  {
    G.RequestAccepted(v, w);
    if G.ToValue(w).Ok? && v.List? {
      G.ToListAt(w.v.value.l);
    }
  }

  lemma TextTranslates(s: Text)
    ensures G.ToOptionalValue(TextValue(s)) == Ok(G.Scalar(G.StringValue(s)))
    ensures Rendered(TextValue(s)) == Ok(Some(s))
    ensures ToLiteral(TextValue(s)) == Ok(Val(G.Scalar(G.StringValue(s))))
  {
    assert G.ToOptionalValue(TextValue(s)) == G.ToValue(Value(Some(StrV(s))));
  }

  predicate IsLeaf(e: PhpExp) {
    e.Bin? || e.BinTypeOf? || e.KeyOf? || e.DigestModulo? || e.Var?
  }

  function Leaf(e: PhpExp): GoExp
    requires IsLeaf(e)
  {
    match e
    case Bin(name, t) => Bin(name, t)
    case BinTypeOf(name) => BinTypeOf(name)
    case KeyOf(t) => KeyOf(t)
    case DigestModulo(n) => DigestModulo(n)
    case Var(name) => Var(name)
  }

  lemma BinTranslates(name: Text, t: ExpType)
    requires TYPE_BOOL <= t <= TYPE_GEO
    ensures ToExpression(Expression(Some(OpBin), TextValue(name), None, None, Some(t), [])) == Ok(Bin(name, t))
  {
  }

  lemma NumbersTranslate(i: int64)
    ensures ToExpression(Expression(Some(OpKey), IntValue(i), None, None, None, [])) == Ok(KeyOf(i))
    ensures ToExpression(Expression(Some(OpDigestModulo), IntValue(i), None, None, None, [])) == Ok(DigestModulo(i))
  {
  }

  lemma NamesTranslate(s: Text)
    ensures ToExpression(Expression(Some(OpBinType), TextValue(s), None, None, None, [])) == Ok(BinTypeOf(Some(s)))
    ensures ToExpression(Expression(Some(OpVar), TextValue(s), None, None, None, [])) == Ok(Var(Some(s)))
  {
    TextTranslates(s);
  }

  /** Leaves other than literals arrive unchanged. */
  lemma LeafTranslates(e: PhpExp, w: Expression)
    requires IsLeaf(e) && Buildable(e) && Builds(e, w) && Translates(e)
    ensures ToExpression(w) == Ok(Leaf(e))
  {
    match e
    case Bin(name, t) => BinTranslates(name, t);
    case BinTypeOf(name) => NamesTranslate(name.value);
    case KeyOf(t) => NumbersTranslate(t);
    case DigestModulo(n) => NumbersTranslate(n);
    case Var(name) => NamesTranslate(name.value);
  }

  /** A tree made by the builders translates without a panic exactly if it contains no floor, no HLL
      bin, no empty list literal and no literal with a non-scalar map key. */
  lemma {:induction false} BuiltTranslates(e: PhpExp, w: Expression)
    requires Buildable(e) && Builds(e, w)
    ensures ToExpression(w).Ok? <==> Translates(e)
    decreases e
  {
    match e
    case Val(v) => LiteralTranslates(v, w.val.value);
    case Regex(pattern, _, bin) =>
      TextTranslates(pattern.value);
      BuiltTranslates(bin, w.bin.value);
    case App(op, args) =>
      forall i | 0 <= i < |args| ensures ToExpression(w.exps[i]).Ok? <==> Translates(args[i]) {
        BuiltTranslates(args[i], w.exps[i]);
      }
      BuiltAppTranslates(op, w);
    case Def(name, value) => DefinitionDropped(name, value, w);
    case _ => BuiltLeafTranslates(e, w);
  }

  lemma BuiltLeafTranslates(e: PhpExp, w: Expression)
    requires IsLeaf(e) && Buildable(e) && Builds(e, w)
    ensures ToExpression(w).Ok? <==> Translates(e)
  {
    if Translates(e) {
      LeafTranslates(e, w);
    }
  }

  lemma BuiltAppTranslates(op: Operator, w: Expression)
    requires w.cmd == Some(CodeOf(op)) && (Arity(op).Some? ==> |w.exps| == Arity(op).value)
    ensures ToExpression(w).Ok? <==> !op.Floor? && forall i | 0 <= i < |w.exps| :: ToExpression(w.exps[i]).Ok?
  {
    if op.Floor? {
      assert Dispatch(w.cmd.value) == NoCase;
    } else {
      CodesAgree(op);
      ApplyTranslates(w);
      ToExpressionsAt(w.exps, |w.exps|);
    }
  }

  /** An operator whose operands are all taken. */
  lemma ApplyTranslates(w: Expression)
    requires w.cmd.Some? && Dispatch(w.cmd.value).Apply?
    requires Dispatch(w.cmd.value).operands.Some? ==> Dispatch(w.cmd.value).operands.value == |w.exps|
    ensures ToExpression(w).Ok? <==> ToExpressions(w.exps, |w.exps|).Ok?
    ensures ToExpression(w).Ok? ==>
              ToExpression(w).value == App(Dispatch(w.cmd.value).op, ToExpressions(w.exps, |w.exps|).value)
  {
  }

  // ----- Meaning -----

  ghost function PhpMean(): P.PhpValue -> P.PhpValue {
    v => P.Normalise(v)
  }

  ghost function GoMean(): G.GoAny -> P.PhpValue {
    g => G.Meaning(g)
  }

  /** Literal maps keep their keys apart, and neither a definition nor the boolean `xor` occurs. */
  ghost predicate Supported(e: PhpExp)
  {
    match e
    case Val(v) => P.KeysStayDistinct(v)
    case Regex(_, _, bin) => Supported(bin)
    case App(op, args) => !op.Exclusive? && forall i | 0 <= i < |args| :: Supported(args[i])
    case Def(_, _) => false
    case _ => true
  }

  /** The two trees have the same value, whatever the record, the variables in scope and the meaning of
      the scalar operations. */
  ghost predicate SameMeaning(e: PhpExp, t: GoExp) {
    forall I, r, env :: Eval(PhpMean(), I, r, env, e) == Eval(GoMean(), I, r, env, t)
  }

  /** What Go builds from a supported tree evaluates like the tree on every record. */
  lemma {:induction false} MeaningPreserved(e: PhpExp, w: Expression)
    requires Buildable(e) && Builds(e, w) && Translates(e) && Supported(e)
    ensures ToExpression(w).Ok? && SameMeaning(e, ToExpression(w).value)
    ensures !ToExpression(w).value.Def?
    decreases e, 1
  {
    match e
    case Val(v) => LiteralPreserved(v, w);
    case Regex(_, _, bin) => RegexPreserved(e, w);
    case App(op, args) => AppPreserved(op, args, w);
    case _ =>
      LeafTranslates(e, w);
      LeafSameMeaning(e);
  }

  lemma LeafSameMeaning(e: PhpExp)
    requires IsLeaf(e)
    ensures SameMeaning(e, Leaf(e))
  {
  }

  lemma LiteralPreserved(v: P.PhpValue, w: Expression)
    requires Buildable(Val(v)) && Builds(Val(v), w) && Translates(Val(v)) && Supported(Val(v))
    ensures ToExpression(w).Ok? && ToExpression(w).value.Val? && SameMeaning(Val(v), ToExpression(w).value)
  {
    LiteralTranslates(v, w.val.value);
    LiteralMeans(v, w.val.value);
  }

  lemma {:induction false} RegexPreserved(e: PhpExp, w: Expression)
    requires e.Regex? && Buildable(e) && Builds(e, w) && Translates(e) && Supported(e)
    ensures ToExpression(w).Ok? && ToExpression(w).value.Regex? && SameMeaning(e, ToExpression(w).value)
    decreases e, 0
  {
    TextTranslates(e.pattern.value);
    MeaningPreserved(e.bin, w.bin.value);
    var t := ToExpression(w.bin.value).value;
    assert ToExpression(w) == Ok(Regex(e.pattern, e.flags, t));
    forall I, r, env
      ensures Eval(PhpMean(), I, r, env, e) == Eval(GoMean(), I, r, env, Regex(e.pattern, e.flags, t))
    {
      assert Eval(PhpMean(), I, r, env, e.bin) == Eval(GoMean(), I, r, env, t);
    }
  }

  lemma {:induction false} AppPreserved(op: Operator, args: seq<PhpExp>, w: Expression)
    requires Buildable(App(op, args)) && Builds(App(op, args), w)
    requires Translates(App(op, args)) && Supported(App(op, args))
    ensures ToExpression(w).Ok? && ToExpression(w).value.App?
    ensures SameMeaning(App(op, args), ToExpression(w).value)
    decreases App(op, args), 0
  {
    var ts := OperandsTranslate(op, args, w);
    OperandsPreserved(op, args, w, ts);
    AppSameMeaning(op, args, ts);
  }

  lemma {:induction false} OperandsPreserved(op: Operator, args: seq<PhpExp>, w: Expression, ts: seq<GoExp>)
    requires Buildable(App(op, args)) && Builds(App(op, args), w)
    requires Translates(App(op, args)) && Supported(App(op, args))
    requires |ts| == |args| && forall i | 0 <= i < |args| :: ToExpression(w.exps[i]) == Ok(ts[i])
    ensures forall i | 0 <= i < |args| :: SameMeaning(args[i], ts[i]) && !ts[i].Def? && !args[i].Def?
    decreases args, 0
  {
    forall i | 0 <= i < |args| ensures SameMeaning(args[i], ts[i]) && !ts[i].Def? && !args[i].Def? {
      MeaningPreserved(args[i], w.exps[i]);
    }
  }

  lemma OperandsTranslate(op: Operator, args: seq<PhpExp>, w: Expression) returns (ts: seq<GoExp>)
    requires Buildable(App(op, args)) && Builds(App(op, args), w) && Translates(App(op, args))
    ensures ToExpression(w) == Ok(App(if op.Exclusive? then IntXor else op, ts)) && |ts| == |args|
    ensures forall i | 0 <= i < |args| :: ToExpression(w.exps[i]) == Ok(ts[i])
  {
    BuiltTranslates(App(op, args), w);
    CodesAgree(op);
    ApplyTranslates(w);
    ToExpressionsAt(w.exps, |w.exps|);
    ts := ToExpressions(w.exps, |w.exps|).value;
  }

  lemma LiteralMeans(v: P.PhpValue, w: Value)
    requires P.Encodes(v, w) && P.KeysStayDistinct(v) && G.ToValue(w).Ok?
    ensures G.Meaning(G.ToValue(w).value) == P.Normalise(v)
  {
    G.RequestAccepted(v, w);
    G.DecodersAgree(w);
    P.RoundTrip(v, w);
  }

  lemma SameOperands(args: seq<PhpExp>, ts: seq<GoExp>, I: Interpretation, r: Subject, env: map<Text, Out>)
    requires |args| == |ts| && forall i | 0 <= i < |args| :: SameMeaning(args[i], ts[i])
    ensures EvalAll(PhpMean(), I, r, env, args) == EvalAll(GoMean(), I, r, env, ts)
  {
    EvalAllAt(PhpMean(), I, r, env, args);
    EvalAllAt(GoMean(), I, r, env, ts);
  }

  lemma AppSameMeaning(op: Operator, args: seq<PhpExp>, ts: seq<GoExp>)
    requires |args| == |ts|
    requires forall i | 0 <= i < |args| :: SameMeaning(args[i], ts[i]) && !ts[i].Def? && !args[i].Def?
    ensures SameMeaning(App(op, args), App(op, ts))
  {
    forall I, r, env
      ensures Eval(PhpMean(), I, r, env, App(op, args)) == Eval(GoMean(), I, r, env, App(op, ts))
    {
      SameOperands(args, ts, I, r, env);
    }
  }

  // ----- Where the meaning is lost -----

  /** The operand of a definition is dropped: only its name survives, as a string literal. */
  lemma DefinitionDropped(name: Text, value: PhpExp, w: Expression)
    requires Builds(Def(name, value), w)
    ensures ToExpression(w) == Ok(Val(G.Scalar(G.StringValue(name))))
  {
    TextTranslates(name);
  }

  /** A `let` with a definition never has a value once translated, so its meaning is preserved exactly
      where it has none to begin with. */
  lemma LetLosesDefinitions(name: Text, value: PhpExp, rest: seq<PhpExp>, w: Expression,
                            I: Interpretation, r: Subject, env: map<Text, Out>)
    requires rest != [] && Builds(App(Let, [Def(name, value)] + rest), w) && ToExpression(w).Ok?
    ensures Eval(GoMean(), I, r, env, ToExpression(w).value) == Undetermined
    ensures (Eval(PhpMean(), I, r, env, App(Let, [Def(name, value)] + rest))
             == Eval(GoMean(), I, r, env, ToExpression(w).value))
            <==> EvalLet(PhpMean(), I, r, env[name := Eval(PhpMean(), I, r, env, value)], rest) == Undetermined
  {
    var args := [Def(name, value)] + rest;
    var ts := LetTranslates(args, w);
    assert args[0] == Def(name, value) && args[1..] == rest;
    DefinitionDropped(name, value, w.exps[0]);
    assert !ts[0].Def?;
  }

  lemma LetTranslates(args: seq<PhpExp>, w: Expression) returns (ts: seq<GoExp>)
    requires Builds(App(Let, args), w) && ToExpression(w).Ok?
    ensures ToExpression(w) == Ok(App(Let, ts)) && |ts| == |args| == |w.exps|
    ensures forall i | 0 <= i < |args| :: Builds(args[i], w.exps[i]) && ToExpression(w.exps[i]) == Ok(ts[i])
  {
    CodesAgree(Let);
    ApplyTranslates(w);
    ToExpressionsAt(w.exps, |w.exps|);
    ts := ToExpressions(w.exps, |w.exps|).value;
  }

  /** `let x = 1 in x` is 1, but not after translation. */
  lemma LetExample(w: Expression, I: Interpretation, r: Subject)
    requires Builds(App(Let, [Def([120], Val(P.Int(1)))] + [Var(Some([120]))]), w)
    ensures ToExpression(w).Ok?
    ensures Eval(PhpMean(), I, r, map[], App(Let, [Def([120], Val(P.Int(1)))] + [Var(Some([120]))])) == Known(P.Int(1))
    ensures Eval(GoMean(), I, r, map[], ToExpression(w).value) == Undetermined
  {
    var d: PhpExp, x: PhpExp := Def([120], Val(P.Int(1))), Var(Some([120]));
    LetExampleTranslates(d, x, w);
    LetExampleValue(d, x, I, r);
    LetLosesDefinitions([120], d.value, [x], w, I, r, map[]);
  }

  lemma LetExampleTranslates(d: PhpExp, x: PhpExp, w: Expression)
    requires d == Def([120], Val(P.Int(1))) && x == Var(Some([120]))
    requires Builds(App(Let, [d] + [x]), w)
    ensures ToExpression(w).Ok?
  {
    LetExampleSupported(d, x, [d] + [x]);
    BuiltTranslates(App(Let, [d] + [x]), w);
  }

  lemma LetExampleSupported(d: PhpExp, x: PhpExp, args: seq<PhpExp>)
    requires d == Def([120], Val(P.Int(1))) && x == Var(Some([120])) && args == [d] + [x]
    ensures Buildable(App(Let, args)) && Translates(App(Let, args))
  {
    assert args[0] == d && args[1] == x;
  }

  lemma LetExampleValue(d: PhpExp, x: PhpExp, I: Interpretation, r: Subject)
    requires d == Def([120], Val(P.Int(1))) && x == Var(Some([120]))
    ensures Eval(PhpMean(), I, r, map[], App(Let, [d] + [x])) == Known(P.Int(1))
  {
    var args := [d] + [x];
    assert args[0] == d && args[1..] == [x];
    var env: map<Text, Out> := map[[120] := Known(P.Int(1))];
    assert Eval(PhpMean(), I, r, map[], d.value) == Known(P.Int(1));
    assert EvalLet(PhpMean(), I, r, env, [x]) == Known(P.Int(1));
  }

  /** The integer `xor` has a value on integers only. */
  ghost predicate IntXorNeedsInts(I: Interpretation) {
    forall vs: seq<P.PhpValue> :: I.apply(IntXor, vs).Known? ==> forall i | 0 <= i < |vs| :: vs[i].Int?
  }

  /** The boolean `xor` is translated to the integer one. Its meaning is preserved exactly when some
      operand has no value, or the operands are no booleans and the integer `xor` has no value on them
      either. (On no operands at all it is preserved if the integer `xor` of nothing is false.) */
  lemma XorMeaning(args: seq<PhpExp>, w: Expression, I: Interpretation, r: Subject, env: map<Text, Out>)
    requires Buildable(App(Exclusive, args)) && Builds(App(Exclusive, args), w)
    requires forall i | 0 <= i < |args| :: Translates(args[i]) && Supported(args[i])
    requires IntXorNeedsInts(I)
    ensures ToExpression(w).Ok?
    ensures (Eval(PhpMean(), I, r, env, App(Exclusive, args)) == Eval(GoMean(), I, r, env, ToExpression(w).value))
            <==> XorAgrees(I, EvalAll(PhpMean(), I, r, env, args))
  {
    var ts := XorOperands(args, w, I, r, env);
    XorDiffers(I, r, EvalAll(PhpMean(), I, r, env, args));
  }

  ghost predicate XorAgrees(I: Interpretation, outs: seq<Out>) {
    var vs := Values(outs);
    || SomeOpen(outs)
    || (vs.Some? && !AllBooleans(outs) && I.apply(IntXor, vs.value).Undetermined?)
    || (outs == [] && I.apply(IntXor, []) == Known(P.Bool(false)))
  }

  predicate AllBooleans(outs: seq<Out>) {
    forall i | 0 <= i < |outs| :: outs[i].Known? ==> outs[i].v.Bool?
  }

  predicate SomeOpen(outs: seq<Out>) {
    exists i :: 0 <= i < |outs| && outs[i].Undetermined?
  }

  lemma XorOperands(args: seq<PhpExp>, w: Expression, I: Interpretation, r: Subject, env: map<Text, Out>)
    returns (ts: seq<GoExp>)
    requires Buildable(App(Exclusive, args)) && Builds(App(Exclusive, args), w)
    requires forall i | 0 <= i < |args| :: Translates(args[i]) && Supported(args[i])
    ensures ToExpression(w) == Ok(App(IntXor, ts))
    ensures EvalAll(PhpMean(), I, r, env, args) == EvalAll(GoMean(), I, r, env, ts)
  {
    ts := OperandsTranslate(Exclusive, args, w);
    forall i | 0 <= i < |args| ensures SameMeaning(args[i], ts[i]) {
      MeaningPreserved(args[i], w.exps[i]);
    }
    SameOperands(args, ts, I, r, env);
  }

  lemma XorDiffers(I: Interpretation, r: Subject, outs: seq<Out>)
    requires IntXorNeedsInts(I)
    ensures Denote(I, r, Exclusive, outs) == Denote(I, r, IntXor, outs) <==> XorAgrees(I, outs)
  {
    ValuesAt(outs);
    if Values(outs).Some? {
      var vs := Values(outs).value;
      assert forall i | 0 <= i < |vs| :: outs[i] == Known(vs[i]);
      if outs == [] {
        assert vs == [];
      } else if AllBooleans(outs) {
        assert outs[0] == Known(vs[0]) && vs[0].Bool?;
        assert I.apply(IntXor, vs).Undetermined?;
        assert forall i | 0 <= i < |vs| :: vs[i].Bool?;
      } else {
        var i :| 0 <= i < |outs| && outs[i].Known? && !outs[i].v.Bool?;
        assert !vs[i].Bool?;
      }
    }
  }

  /** `true xor false` is true, but has no value after translation. */
  lemma XorExample(w: Expression, I: Interpretation, r: Subject)
    requires Builds(App(Exclusive, [Val(P.Bool(true)), Val(P.Bool(false))]), w) && IntXorNeedsInts(I)
    ensures ToExpression(w).Ok?
    ensures Eval(PhpMean(), I, r, map[], App(Exclusive, [Val(P.Bool(true)), Val(P.Bool(false))]))
         == Known(P.Bool(true))
    ensures Eval(GoMean(), I, r, map[], ToExpression(w).value) == Undetermined
  {
    var t: PhpExp, f: PhpExp := Val(P.Bool(true)), Val(P.Bool(false));
    var args, outs := [t, f], [Known(P.Bool(true)), Known(P.Bool(false))];
    PairOperands(args, t, f);
    EvalPair(t, f, I, r);
    var ts := XorOperands(args, w, I, r, map[]);
    XorOfPair(I, r, outs);
  }

  lemma PairOperands(args: seq<PhpExp>, t: PhpExp, f: PhpExp)
    requires t == Val(P.Bool(true)) && f == Val(P.Bool(false)) && args == [t, f]
    ensures Buildable(App(Exclusive, args))
    ensures forall i | 0 <= i < |args| :: Translates(args[i]) && Supported(args[i])
  {
    assert args[0] == t && args[1] == f;
  }

  lemma EvalPair(t: PhpExp, f: PhpExp, I: Interpretation, r: Subject)
    requires t == Val(P.Bool(true)) && f == Val(P.Bool(false))
    ensures EvalAll(PhpMean(), I, r, map[], [t, f]) == [Known(P.Bool(true)), Known(P.Bool(false))]
  {
    assert [t, f][..1] == [t] && [t][..0] == [];
    assert EvalAll(PhpMean(), I, r, map[], [t]) == [Known(P.Bool(true))];
  }

  lemma XorOfPair(I: Interpretation, r: Subject, outs: seq<Out>)
    requires outs == [Known(P.Bool(true)), Known(P.Bool(false))] && IntXorNeedsInts(I)
    ensures Denote(I, r, Exclusive, outs) == Known(P.Bool(true))
    ensures Denote(I, r, IntXor, outs) == Undetermined
  {
    var vs := [P.Bool(true), P.Bool(false)];
    PairValues(outs, vs);
    PairCount(vs);
    assert !vs[0].Int?;
  }

  lemma PairValues(outs: seq<Out>, vs: seq<P.PhpValue>)
    requires vs == [P.Bool(true), P.Bool(false)] && outs == [Known(P.Bool(true)), Known(P.Bool(false))]
    ensures Values(outs) == Some(vs)
  {
    ValuesAt(outs);
    assert outs[0] == Known(vs[0]) && outs[1] == Known(vs[1]);
    var got := Values(outs).value;
    assert outs[0] == Known(got[0]) && outs[1] == Known(got[1]);
    assert got == vs;
  }

  lemma PairCount(vs: seq<P.PhpValue>)
    requires vs == [P.Bool(true), P.Bool(false)]
    ensures CountTrue(vs) == 1
  {
    var one := vs[1..];
    assert one == [P.Bool(false)] && one[1..] == [];
    assert CountTrue(one) == CountTrue(one[1..]);
  }
}
