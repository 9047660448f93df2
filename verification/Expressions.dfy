/** The filter-expression language: trees, and what they evaluate to on a record. `Literal` is the
    type of embedded values: PHP values on the Rust side, Go values on the other. */
module Expressions {
  import opened Basics
  import opened Wire
  import opened PhpCodec
  import Keys

  datatype Operator =
    | Unknown | Eq | Ne | Gt | Ge | Lt | Le | Geo
    | And | Or | Not | Exclusive
    | Add | Sub | Mul | Div | Pow | Log | Mod | Abs | Floor | Ceil | ToInt | ToFloat
    | IntAnd | IntOr | IntXor | IntNot | LShift | RShift | ARShift | Count | LScan | RScan
    | Min | Max
    | DeviceSize | LastUpdate | SinceUpdate | VoidTime | Ttl | SetName
    | KeyExists | IsTombstone | MemorySize | RecordSize
    | Cond | Let

  /** A name is `None` when it is the rendering of a value that is not a string; `Missing` is a nil
      expression pointer. */
  datatype Exp<Literal> =
    | Val(v: Literal)
    | Bin(name: Text, type_: ExpType)
    | BinTypeOf(binName: Option<Text>)
    | KeyOf(type_: ExpType)
    | DigestModulo(modulo: int64)
    | Regex(pattern: Option<Text>, flags: int64, bin: Exp<Literal>)
    | App(op: Operator, args: seq<Exp<Literal>>)
    | Def(defined: Text, value: Exp<Literal>)
    | Var(varName: Option<Text>)
    | Missing

  /** The value of an expression, if the record determines one. */
  datatype Out = Known(v: PhpValue) | Undetermined

  /** The record an expression is evaluated on. */
  datatype Subject = Subject(
    bins: map<Text, PhpValue>,
    key: PhpValue,
    metadata: Operator -> PhpValue,
    digestModulo: int64 -> PhpValue
  )

  /** The meaning of the scalar operations: any ordering of values other than integers, any
      arithmetic, any regular-expression matching. */
  datatype Interpretation = Interpretation(
    less: (PhpValue, PhpValue) -> Option<bool>,
    apply: (Operator, seq<PhpValue>) -> Out,
    matches: (Text, int64, PhpValue) -> Out
  )

  predicate HasType(v: PhpValue, t: ExpType) {
    match v
    case Nil => t == TYPE_NIL
    case Bool(_) => t == TYPE_BOOL
    case Int(_) => t == TYPE_INT
    case Str(_) => t == TYPE_STRING
    case List(_) => t == TYPE_LIST
    case HashMap(_) => t == TYPE_MAP
    case Blob(_) => t == TYPE_BLOB
    case Float(_) => t == TYPE_FLOAT
    case GeoJson(_) => t == TYPE_GEO
    case Hll(_) => t == TYPE_HLL
    case _ => false
  }

  function ParticleCode(v: PhpValue): int64 {
    var t := Keys.ParticleType(v);
    if t.Ok? then t.value else 0
  }

  predicate IsMetadata(op: Operator) {
    op.DeviceSize? || op.LastUpdate? || op.SinceUpdate? || op.VoidTime? || op.Ttl? || op.SetName?
    || op.KeyExists? || op.IsTombstone? || op.MemorySize? || op.RecordSize?
  }

  function Truth(b: bool): Out { Known(Bool(b)) }

  function Below(I: Interpretation, a: PhpValue, b: PhpValue): Option<bool> {
    if a.Int? && b.Int? then Some(a.i < b.i) else I.less(a, b)
  }

  /** The value of an operator other than `Let` on the values of its arguments. */
  function Denote(I: Interpretation, r: Subject, op: Operator, args: seq<Out>): Out {
    if IsMetadata(op) then (if args == [] then Known(r.metadata(op)) else Undetermined)
    else if op.Unknown? then Undetermined
    else if op.And? then Connect(args, false)
    else if op.Or? then Connect(args, true)
    else if op.Cond? then Choose(args)
    else
      var vs := Values(args);
      if vs.Some? then DenoteKnown(I, op, vs.value) else Undetermined
  }

  /** The argument values, if all are determined. */
  function Values(args: seq<Out>): Option<seq<PhpValue>> {
    if args == [] then Some([]) else
    var init := Values(args[..|args| - 1]);
    if init.Some? && args[|args| - 1].Known? then Some(init.value + [args[|args| - 1].v]) else None
  }

  function DenoteKnown(I: Interpretation, op: Operator, vs: seq<PhpValue>): Out {
    match op
    case Not => if |vs| == 1 && vs[0].Bool? then Truth(!vs[0].b) else Undetermined
    case Eq => if |vs| == 2 then Truth(vs[0] == vs[1]) else Undetermined
    case Ne => if |vs| == 2 then Truth(vs[0] != vs[1]) else Undetermined
    case Lt => if |vs| == 2 then Compare(Below(I, vs[0], vs[1]), true) else Undetermined
    case Ge => if |vs| == 2 then Compare(Below(I, vs[0], vs[1]), false) else Undetermined
    case Gt => if |vs| == 2 then Compare(Below(I, vs[1], vs[0]), true) else Undetermined
    case Le => if |vs| == 2 then Compare(Below(I, vs[1], vs[0]), false) else Undetermined
    case Exclusive =>
      if exists i :: 0 <= i < |vs| && !vs[i].Bool? then Undetermined
      else Truth(CountTrue(vs) == 1)
    case _ => I.apply(op, vs)
  }

  function Compare(below: Option<bool>, positive: bool): Out {
    if below.Some? then Truth(below.value == positive) else Undetermined
  }

  function CountTrue(vs: seq<PhpValue>): nat {
    if vs == [] then 0 else (if vs[0] == Bool(true) then 1 else 0) + CountTrue(vs[1..])
  }

  /** Conjunction (`absorbing` false) or disjunction (true), from left to right: the first argument
      with the absorbing value decides, one without a truth value leaves the result open. */
  function Connect(args: seq<Out>, absorbing: bool): Out {
    if args == [] then Truth(!absorbing)
    else if args[0] == Truth(absorbing) then args[0]
    else if args[0] == Truth(!absorbing) then Connect(args[1..], absorbing)
    else Undetermined
  }

  /** Condition and action pairs followed by a default action. */
  function Choose(args: seq<Out>): Out {
    if args == [] then Undetermined
    else if |args| == 1 then args[0]
    else if args[0] == Truth(true) then args[1]
    else if args[0] == Truth(false) then Choose(args[2..])
    else Undetermined
  }

  /** `mean` gives the value of a literal, `env` the variables in scope. */
  function Eval<L>(mean: L -> PhpValue, I: Interpretation, r: Subject, env: map<Text, Out>, e: Exp<L>): Out
    decreases e
  {
    match e
    case Val(v) => Known(mean(v))
    case Bin(name, t) => if name in r.bins && HasType(r.bins[name], t) then Known(r.bins[name]) else Undetermined
    case BinTypeOf(name) =>
      if name.None? then Undetermined
      else Known(Int(if name.value in r.bins then ParticleCode(r.bins[name.value]) else 0))
    case KeyOf(t) => if HasType(r.key, t) then Known(r.key) else Undetermined
    case DigestModulo(n) => Known(r.digestModulo(n))
    case Regex(pattern, flags, bin) =>
      var x := Eval(mean, I, r, env, bin);
      if pattern.Some? && x.Known? then I.matches(pattern.value, flags, x.v) else Undetermined
    case App(op, args) =>
      if op.Let? then EvalLet(mean, I, r, env, args) else Denote(I, r, op, EvalAll(mean, I, r, env, args))
    case Def(_, _) => Undetermined
    case Var(name) => if name.Some? && name.value in env then env[name.value] else Undetermined
    case Missing => Undetermined
  }

  function EvalAll<L>(mean: L -> PhpValue, I: Interpretation, r: Subject, env: map<Text, Out>, es: seq<Exp<L>>)
    : (outs: seq<Out>)
    ensures |outs| == |es|
    decreases es
  {
    if es == [] then []
    else EvalAll(mean, I, r, env, es[..|es| - 1]) + [Eval(mean, I, r, env, es[|es| - 1])]
  }

  /** Definitions, each visible to the following ones, and then the expression they scope over. */
  function EvalLet<L>(mean: L -> PhpValue, I: Interpretation, r: Subject, env: map<Text, Out>, es: seq<Exp<L>>): Out
    decreases es
  {
    if es == [] then Undetermined
    else if |es| == 1 then Eval(mean, I, r, env, es[0])
    else if es[0].Def? then
      EvalLet(mean, I, r, env[es[0].defined := Eval(mean, I, r, env, es[0].value)], es[1..])
    else Undetermined
  }

  lemma {:induction false} EvalAllAt<L>(mean: L -> PhpValue, I: Interpretation, r: Subject,
                                        env: map<Text, Out>, es: seq<Exp<L>>)
    ensures forall i | 0 <= i < |es| :: EvalAll(mean, I, r, env, es)[i] == Eval(mean, I, r, env, es[i])
  {
    if es != [] {
      EvalAllAt(mean, I, r, env, es[..|es| - 1]);
    }
  }

  lemma {:induction false} ValuesAt(args: seq<Out>)
    ensures Values(args).None? <==> exists i :: 0 <= i < |args| && args[i].Undetermined?
    ensures Values(args).Some? ==>
              |Values(args).value| == |args| && forall i | 0 <= i < |args| :: args[i] == Known(Values(args).value[i])
  {
    if args != [] {
      var init := args[..|args| - 1];
      ValuesAt(init);
      if Values(init).None? {
        var i :| 0 <= i < |init| && init[i].Undetermined?;
        assert args[i].Undetermined?;
      } else {
        assert forall i | 0 <= i < |init| :: args[i] == init[i];
      }
    }
  }

  // ----- What the operators mean -----

  predicate Truths(args: seq<Out>) {
    forall i | 0 <= i < |args| :: args[i] == Truth(true) || args[i] == Truth(false)
  }

  /** On truth values, `and` is true if all are, `or` if one is. */
  lemma {:induction false} ConnectMeans(args: seq<Out>)
    requires Truths(args)
    ensures Connect(args, false) == Truth(forall i | 0 <= i < |args| :: args[i] == Truth(true))
    ensures Connect(args, true) == Truth(exists i | 0 <= i < |args| :: args[i] == Truth(true))
  {
    if args != [] {
      ConnectMeans(args[1..]);
      assert forall i | 1 <= i < |args| :: args[i] == args[1..][i - 1];
    }
  }

  /** `and`, `or`, `not` and `xor` on truth values. */
  lemma LogicMeans(I: Interpretation, r: Subject, args: seq<Out>)
    requires Truths(args)
    ensures Denote(I, r, And, args) == Truth(forall i | 0 <= i < |args| :: args[i] == Truth(true))
    ensures Denote(I, r, Or, args) == Truth(exists i | 0 <= i < |args| :: args[i] == Truth(true))
    ensures |args| == 1 ==> Denote(I, r, Not, args) == Truth(args[0] == Truth(false))
    ensures Denote(I, r, Exclusive, args) == Truth(exists i | 0 <= i < |args| :: OnlyTrue(args, i))
  {
    ConnectMeans(args);
    var vs := TruthValues(args);
    DenotesKnown(I, r, Not, args, vs);
    DenotesKnown(I, r, Exclusive, args, vs);
    ExclusiveMeans(I, args, vs);
  }

  lemma DenotesKnown(I: Interpretation, r: Subject, op: Operator, args: seq<Out>, vs: seq<PhpValue>)
    requires Values(args) == Some(vs)
    requires !IsMetadata(op) && !op.Unknown? && !op.And? && !op.Or? && !op.Cond?
    ensures Denote(I, r, op, args) == DenoteKnown(I, op, vs)
  {
  }

  lemma TruthValues(args: seq<Out>) returns (vs: seq<PhpValue>)
    requires Truths(args)
    ensures Values(args) == Some(vs) && |vs| == |args|
    ensures forall i | 0 <= i < |vs| :: args[i] == Known(vs[i]) && vs[i].Bool?
  {
    ValuesAt(args);
    vs := Values(args).value;
  }

  lemma ExclusiveMeans(I: Interpretation, args: seq<Out>, vs: seq<PhpValue>)
    requires |vs| == |args| && forall i | 0 <= i < |vs| :: args[i] == Known(vs[i]) && vs[i].Bool?
    ensures DenoteKnown(I, Exclusive, vs) == Truth(exists i | 0 <= i < |args| :: OnlyTrue(args, i))
  {
    CountOne(vs);
    forall i | 0 <= i < |args| ensures OnlyTrue(args, i) <==> SingleTrue(vs, i) {
    }
  }

  /** Argument `i` is true and no other is. */
  predicate OnlyTrue(args: seq<Out>, i: nat)
    requires i < |args|
  {
    forall j | 0 <= j < |args| :: args[j] == Truth(true) <==> j == i
  }

  predicate SingleTrue(vs: seq<PhpValue>, i: nat)
    requires i < |vs|
  {
    forall j | 0 <= j < |vs| :: vs[j] == Bool(true) <==> j == i
  }

  lemma {:induction false} CountNone(vs: seq<PhpValue>)
    ensures CountTrue(vs) == 0 <==> forall j | 0 <= j < |vs| :: vs[j] != Bool(true)
  {
    if vs != [] {
      CountNone(vs[1..]);
      assert forall j | 1 <= j < |vs| :: vs[j] == vs[1..][j - 1];
    }
  }

  lemma {:induction false} CountOne(vs: seq<PhpValue>)
    ensures CountTrue(vs) == 1 <==> exists i | 0 <= i < |vs| :: SingleTrue(vs, i)
  {
    if vs != [] {
      var tail := vs[1..];
      assert forall j | 1 <= j < |vs| :: vs[j] == tail[j - 1];
      if vs[0] == Bool(true) {
        CountNone(tail);
        if CountTrue(vs) == 1 {
          assert SingleTrue(vs, 0);
        }
        forall i | 0 <= i < |vs| && SingleTrue(vs, i) ensures i == 0 && CountTrue(tail) == 0 {
          assert vs[0] == Bool(true);
          forall j | 0 <= j < |tail| ensures tail[j] != Bool(true) {
            assert vs[j + 1] == tail[j];
          }
        }
      } else {
        CountOne(tail);
        forall i | 0 <= i < |tail| ensures SingleTrue(tail, i) <==> SingleTrue(vs, i + 1) {
          if SingleTrue(vs, i + 1) {
            assert forall j | 0 <= j < |tail| :: tail[j] == vs[j + 1];
          }
        }
        assert !SingleTrue(vs, 0);
        if i: nat :| i < |vs| && SingleTrue(vs, i) {
          assert SingleTrue(tail, i - 1);
        }
      }
    }
  }

  /** The comparisons of integers. */
  lemma ComparisonMeans(I: Interpretation, r: Subject, a: int64, b: int64)
    ensures var args := [Known(Int(a)), Known(Int(b))];
      && Denote(I, r, Lt, args) == Truth(a < b) && Denote(I, r, Le, args) == Truth(a <= b)
      && Denote(I, r, Gt, args) == Truth(a > b) && Denote(I, r, Ge, args) == Truth(a >= b)
  {
    var args, vs := [Known(Int(a)), Known(Int(b))], [Int(a), Int(b)];
    TwoValues(Int(a), Int(b));
    DenotesKnown(I, r, Lt, args, vs);
    DenotesKnown(I, r, Le, args, vs);
    DenotesKnown(I, r, Gt, args, vs);
    DenotesKnown(I, r, Ge, args, vs);
  }

  /** Equality of any values. */
  lemma EqualityMeans(I: Interpretation, r: Subject, v: PhpValue, w: PhpValue)
    ensures var args := [Known(v), Known(w)];
      Denote(I, r, Eq, args) == Truth(v == w) && Denote(I, r, Ne, args) == Truth(v != w)
  {
    TwoValues(v, w);
    DenotesKnown(I, r, Eq, [Known(v), Known(w)], [v, w]);
    DenotesKnown(I, r, Ne, [Known(v), Known(w)], [v, w]);
  }

  lemma TwoValues(v: PhpValue, w: PhpValue)
    ensures Values([Known(v), Known(w)]) == Some([v, w])
  {
    var args := [Known(v), Known(w)];
    ValuesAt(args);
    assert args[0].Known? && args[1].Known?;
    var vs := Values(args).value;
    assert args[0] == Known(vs[0]) && args[1] == Known(vs[1]);
    assert vs == [v, w];
  }

  /** `cond` takes the action of the first condition that is true, or the default if all are false. */
  lemma {:induction false} ChooseMeans(args: seq<Out>, k: nat)
    requires 2 * k < |args| && forall j | 0 <= j < k :: args[2 * j] == Truth(false)
    requires 2 * k + 1 < |args| ==> args[2 * k] == Truth(true)
    ensures Choose(args) == if 2 * k + 1 < |args| then args[2 * k + 1] else args[2 * k]
  {
    if k > 0 {
      assert args[2 * 0] == Truth(false);
      forall j | 0 <= j < k - 1 ensures args[2..][2 * j] == Truth(false) {
        assert args[2..][2 * j] == args[2 * (j + 1)];
      }
      ChooseMeans(args[2..], k - 1);
    }
  }
}
