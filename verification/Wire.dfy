/** The protocol-buffer messages both sides exchange (asld_kvs.proto). An unset message field
    or an unset oneof is `None`. A nil element of a repeated message field is marshalled by Go as
    an empty message, so a Go padding entry reaches Rust as `EMPTY_ENTRY`. */
module Wire {
  import opened Basics

  datatype Value = Value(v: Option<Oneof>)

  datatype Oneof =
    | NilV(nil: bool)
    | IntV(i: int64)
    | FloatV(f: Double)
    | StrV(s: Text)
    | BoolV(b: bool)
    | BlobV(blob: seq<byte>)
    | ListV(l: seq<Value>)
    | MapV(m: seq<MapEntry>)
    | JsonV(j: seq<JsonEntry>)
    | GeoV(geo: Text)
    | HllV(hll: seq<byte>)
    | WildcardV(wildcard: bool)
    | InfinityV(infinity: bool)

  datatype MapEntry = MapEntry(k: Option<Value>, v: Option<Value>)

  datatype JsonEntry = JsonEntry(key: Text, v: Option<Value>)

  const EMPTY_ENTRY := MapEntry(None, None)
  const EMPTY_JSON_ENTRY := JsonEntry([], None)

  datatype Key = Key(digest: Option<seq<byte>>, namespace: Option<Text>, set_: Option<Text>, value: Option<Value>)

  datatype Record = Record(key: Option<Key>, generation: nat, expiration: nat, bins: map<Text, Value>)

  datatype Error = Error(resultCode: int, inDoubt: bool)

  datatype StreamResponse = StreamResponse(record: Option<Record>, error: Option<Error>, bval: Option<int64>)

  datatype PartitionStatus = PartitionStatus(bval: Option<int64>, id: nat, retry: bool, digest: seq<byte>)

  datatype PartitionFilter = PartitionFilter(
    begin: nat,
    count: nat,
    digest: seq<byte>,
    partitions: seq<PartitionStatus>,
    done: bool,
    retry: bool
  )

  /** Operation codes of filter expressions; the enumeration is open. */
  datatype ExpOp =
    | OpUnknown | OpEq | OpNe | OpGt | OpGe | OpLt | OpLe | OpRegex | OpGeo
    | OpAnd | OpOr | OpNot | OpExclusive
    | OpAdd | OpSub | OpMul | OpDiv | OpPow | OpLog | OpMod | OpAbs | OpFloor | OpCeil | OpToInt | OpToFloat
    | OpIntAnd | OpIntOr | OpIntXor | OpIntNot | OpIntLShift | OpIntRShift | OpIntARShift
    | OpIntCount | OpIntLScan | OpIntRScan
    | OpMin | OpMax
    | OpDigestModulo | OpDeviceSize | OpLastUpdate | OpSinceUpdate | OpVoidTime | OpTtl | OpSetName
    | OpKeyExists | OpIsTombstone | OpMemorySize | OpRecordSize
    | OpKey | OpBin | OpBinType
    | OpCond | OpVar | OpLet | OpQuoted | OpCall
    | OpOther(code: int)

  /** Expression types, by number. */
  type ExpType = int64

  const TYPE_NIL: ExpType := 0
  const TYPE_BOOL: ExpType := 1
  const TYPE_INT: ExpType := 2
  const TYPE_STRING: ExpType := 3
  const TYPE_LIST: ExpType := 4
  const TYPE_MAP: ExpType := 5
  const TYPE_BLOB: ExpType := 6
  const TYPE_FLOAT: ExpType := 7
  const TYPE_GEO: ExpType := 8
  const TYPE_HLL: ExpType := 9

  datatype Expression = Expression(
    cmd: Option<ExpOp>,
    val: Option<Value>,
    bin: Option<Expression>,
    flags: Option<int64>,
    module_: Option<ExpType>,
    exps: seq<Expression>
  )
}
