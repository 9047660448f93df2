/** The Go half of the value codec: `toValue` on the request path and `fromValue` on the response
    path (aerospike-connection-manager/kvs.go). */
module GoCodec {
  import opened Basics
  import opened Wire
  import P = PhpCodec

  /** A scalar of a plain Go type, or of one of the client library's own types. */
  datatype GoScalar =
    | NilInterface
    | GoInt(i: int64)
    | GoFloat64(f: Double)
    | GoString(s: Text)
    | GoBool(b: bool)
    | GoBytes(bytes: seq<byte>)
    | NullValue
    | IntegerValue(i: int64)
    | LongValue(i: int64)
    | FloatValue(f: Double)
    | StringValue(s: Text)
    | BoolValue(b: bool)
    | BytesValue(bytes: seq<byte>)
    | HllValue(bytes: seq<byte>)
    | GeoJsonValue(s: Text)
    | WildcardValue
    | InfinityValue

  /** A Go value of type `any`. `Slice` is `[]any`, `Map` is `map[any]any`, `MapPairs` is
      `[]aero.MapPair`, the others are the client library's types of those names, and `Foreign` is a
      value of any other type. */
  datatype GoAny =
    | Scalar(scalar: GoScalar)
    | Slice(l: seq<GoAny>)
    | Map(m: map<GoAny, GoAny>)
    | MapPairs(ps: seq<MapPair>)
    | OpResults(l: seq<GoAny>)
    | JsonValue(j: map<Text, GoAny>)
    | ListValue(l: seq<GoAny>)
    | MapValue(m: map<GoAny, GoAny>)
    | Foreign

  datatype MapPair = MapPair(key: GoAny, val: GoAny)

  function ScalarMeaning(x: GoScalar): P.PhpValue {
    match x
    case NilInterface => P.Nil
    case GoInt(i) => P.Int(i)
    case GoFloat64(f) => P.PhpValue.Float(f)
    case GoString(s) => P.Str(s)
    case GoBool(b) => P.Bool(b)
    case GoBytes(b) => P.Blob(b)
    case NullValue => P.Nil
    case IntegerValue(i) => P.Int(i)
    case LongValue(i) => P.Int(i)
    case FloatValue(f) => P.PhpValue.Float(f)
    case StringValue(s) => P.Str(s)
    case BoolValue(b) => P.Bool(b)
    case BytesValue(b) => P.Blob(b)
    case HllValue(b) => P.Hll(b)
    case GeoJsonValue(s) => P.GeoJson(s)
    case WildcardValue => P.Wildcard
    case InfinityValue => P.Infinity
  }

  /** The value a PHP reader should see for a Go value. Keys of one map with the same meaning are
      merged; the last pair of a pair list wins. */
  ghost function Meaning(a: GoAny): P.PhpValue
    decreases a, 1
  {
    match a
    case Scalar(x) => ScalarMeaning(x)
    case Slice(l) => P.List(Meanings(a, l))
    case Map(m) => P.HashMap(MapMeaning(a, m))
    case MapPairs(ps) => P.HashMap(InsertAll(PairMeanings(a, ps)))
    case OpResults(l) => P.List(Meanings(a, l))
    case JsonValue(j) => P.Json(map k | k in j :: Meaning(j[k]))
    case ListValue(l) => P.List(Meanings(a, l))
    case MapValue(m) => P.HashMap(MapMeaning(a, m))
    case Foreign => P.Nil
  }

  ghost function Meanings(a: GoAny, l: seq<GoAny>): (vs: seq<P.PhpValue>)
    requires forall i | 0 <= i < |l| :: l[i] < a
    ensures |vs| == |l|
    decreases a, 0
  {
    seq(|l|, i requires 0 <= i < |l| => Meaning(l[i]))
  }

  ghost predicate Inside(a: GoAny, ps: seq<MapPair>) {
    forall p | p in ps :: p.key < a && p.val < a
  }

  ghost function PairMeanings(a: GoAny, ps: seq<MapPair>): (qs: seq<(P.PhpValue, P.PhpValue)>)
    requires Inside(a, ps)
    ensures |qs| == |ps|
    decreases a, 0
  {
    seq(|ps|, i requires 0 <= i < |ps| => assert ps[i] in ps; (Meaning(ps[i].key), Meaning(ps[i].val)))
  }

  ghost function MapMeaning(a: GoAny, m: map<GoAny, GoAny>): map<P.PhpValue, P.PhpValue>
    requires forall k | k in m :: k < a && m[k] < a
    decreases a, 0, 1
  {
    map n | n in KeyMeanings(a, m) :: var k :| k in m && Meaning(k) == n; Meaning(m[k])
  }

  ghost function KeyMeanings(a: GoAny, m: map<GoAny, GoAny>): set<P.PhpValue>
    requires forall k | k in m :: k < a
    decreases a, 0, 0
  {
    set k | k in m :: Meaning(k)
  }

  ghost predicate InjectiveKeys(m: map<GoAny, GoAny>) {
    forall k, k' | k in m && k' in m :: Meaning(k) == Meaning(k') ==> k == k'
  }

  lemma MeaningAt(a: GoAny, m: map<GoAny, GoAny>, k: GoAny)
    requires forall k | k in m :: k < a && m[k] < a
    requires InjectiveKeys(m) && k in m
    ensures Meaning(k) in MapMeaning(a, m) && MapMeaning(a, m)[Meaning(k)] == Meaning(m[k])
  {
    assert Meaning(k) in KeyMeanings(a, m);
  }

  lemma MeaningFrom(a: GoAny, m: map<GoAny, GoAny>, n: P.PhpValue) returns (k: GoAny)
    requires forall k | k in m :: k < a && m[k] < a
    requires n in MapMeaning(a, m)
    ensures k in m && Meaning(k) == n
  {
    assert n in KeyMeanings(a, m);
    k :| k in m && Meaning(k) == n;
  }

  // ----- Response path: fromValue -----

  /** `fromValue` has a case for the type of every value inside `a`. */
  ghost predicate Encodable(a: GoAny)
  {
    match a
    case Scalar(_) => true
    case Slice(l) => forall i | 0 <= i < |l| :: Encodable(l[i])
    case Map(m) => forall k | k in m :: Encodable(k) && Encodable(m[k])
    case MapPairs(ps) => forall p | p in ps :: Encodable(p.key) && Encodable(p.val)
    case OpResults(l) => forall i | 0 <= i < |l| :: Encodable(l[i])
    case JsonValue(j) => forall k | k in j :: Encodable(j[k])
    case ListValue(_) => false
    case MapValue(_) => false
    case Foreign => false
  }

  function ScalarOneof(x: GoScalar): Oneof {
    match x
    case NilInterface => NilV(true)
    case GoInt(i) => IntV(i)
    case GoFloat64(f) => FloatV(f)
    case GoString(s) => StrV(s)
    case GoBool(b) => BoolV(b)
    case GoBytes(b) => BlobV(b)
    case NullValue => NilV(true)
    case IntegerValue(i) => IntV(i)
    case LongValue(i) => IntV(i)
    case FloatValue(f) => FloatV(f)
    case StringValue(s) => StrV(s)
    case BoolValue(b) => BoolV(b)
    case BytesValue(b) => BlobV(b)
    case HllValue(b) => HllV(b)
    case GeoJsonValue(s) => GeoV(s)
    case WildcardValue => WildcardV(true)
    case InfinityValue => InfinityV(true)
  }

  function Padding(n: nat): seq<MapEntry> { seq(n, _ => EMPTY_ENTRY) }

  function JsonPadding(n: nat): seq<JsonEntry> { seq(n, _ => EMPTY_JSON_ENTRY) }

  /** `ps` lists the entries of `m`, each key once: one possible iteration order. */
  ghost predicate ListsMap(ps: seq<MapPair>, m: map<GoAny, GoAny>) {
    && (forall p | p in ps :: p.key in m && p.val == m[p.key])
    && (forall k | k in m :: MapPair(k, m[k]) in ps)
    && (forall i, j :: 0 <= i < j < |ps| ==> ps[i].key != ps[j].key)
  }

  /** `w` is what `fromValue(a)` may return: a map or JSON value of n entries is n empty entries
      followed by the n real ones, in some iteration order. */
  ghost predicate Encodes(a: GoAny, w: Value)
    decreases a, 1
  {
    match a
    case Scalar(x) => w == Value(Some(ScalarOneof(x)))
    case Slice(l) =>
      && w.v.Some? && w.v.value.ListV? && |w.v.value.l| == |l|
      && forall i | 0 <= i < |l| :: Encodes(l[i], w.v.value.l[i])
    case Map(m) =>
      && w.v.Some? && w.v.value.MapV?
      && exists ps :: ListsMap(ps, m) && EncodesPadded(a, ps, w.v.value.m)
    case MapPairs(ps) => w.v.Some? && w.v.value.MapV? && EncodesPadded(a, ps, w.v.value.m)
    case OpResults(l) =>
      && w.v.Some? && w.v.value.ListV? && |w.v.value.l| == |l|
      && forall i | 0 <= i < |l| :: Encodes(l[i], w.v.value.l[i])
    case JsonValue(j) =>
      w.v.Some? && w.v.value.JsonV? && exists ks :: EncodesJsonInOrder(a, ks, w.v.value.j)
    case ListValue(_) => false
    case MapValue(_) => false
    case Foreign => false
  }

  ghost predicate EncodesPadded(a: GoAny, ps: seq<MapPair>, es: seq<MapEntry>)
    requires Inside(a, ps)
    decreases a, 0, 1
  {
    && |es| == 2 * |ps|
    && es[..|ps|] == Padding(|ps|)
    && EncodesPairs(a, ps, es[|ps|..])
  }

  ghost predicate EncodesPairs(a: GoAny, ps: seq<MapPair>, es: seq<MapEntry>)
    requires Inside(a, ps)
    decreases a, 0, 0
  {
    && |es| == |ps|
    && forall i | 0 <= i < |ps| ::
         assert ps[i] in ps;
         && es[i].k.Some? && es[i].v.Some?
         && Encodes(ps[i].key, es[i].k.value) && Encodes(ps[i].val, es[i].v.value)
  }

  ghost predicate EncodesJsonInOrder(a: GoAny, ks: seq<Text>, es: seq<JsonEntry>)
    requires a.JsonValue?
    decreases a, 0, 1
  {
    && Iterates(ks, a.j.Keys)
    && |es| == 2 * |ks|
    && es[..|ks|] == JsonPadding(|ks|)
    && EncodesJsonEntries(a, ks, es[|ks|..])
  }

  ghost predicate EncodesJsonEntries(a: GoAny, ks: seq<Text>, es: seq<JsonEntry>)
    requires a.JsonValue?
    decreases a, 0, 0
  {
    && |es| == |ks|
    && forall i | 0 <= i < |ks| ::
         ks[i] in a.j && es[i].key == ks[i] && es[i].v.Some? && Encodes(a.j[ks[i]], es[i].v.value)
  }

  /** `fromValue`: fails exactly on a value with a part of an unsupported type. */
  method FromValue(a: GoAny) returns (r: Outcome<Value>)
    ensures r.Ok? <==> Encodable(a)
    ensures r.Ok? ==> Encodes(a, r.value)
    decreases a, 1
  {
    match a
    case Scalar(x) =>
      r := Ok(Value(Some(ScalarOneof(x))));
    case Slice(l) =>
      var es := FromSlice(a, l);
      r := if es.Ok? then Ok(Value(Some(ListV(es.value)))) else Panic;
    case Map(m) =>
      var es := FromMap(a);
      r := if es.Ok? then Ok(Value(Some(MapV(es.value)))) else Panic;
    case MapPairs(ps) =>
      var es := FromPairs(a);
      r := if es.Ok? then Ok(Value(Some(MapV(es.value)))) else Panic;
    case OpResults(l) =>
      var es := FromSlice(a, l);
      r := if es.Ok? then Ok(Value(Some(ListV(es.value)))) else Panic;
    case JsonValue(j) =>
      var es := FromJson(a);
      r := if es.Ok? then Ok(Value(Some(JsonV(es.value)))) else Panic;
    case ListValue(_) => r := Panic;
    case MapValue(_) => r := Panic;
    case Foreign => r := Panic;
  }

  method FromSlice(a: GoAny, l: seq<GoAny>) returns (r: Outcome<seq<Value>>)
    requires forall i | 0 <= i < |l| :: l[i] < a
    ensures r.Ok? <==> forall i | 0 <= i < |l| :: Encodable(l[i])
    ensures r.Ok? ==> |r.value| == |l| && forall i | 0 <= i < |l| :: Encodes(l[i], r.value[i])
    decreases a, 0
  {
    var es: seq<Value> := [];
    for i := 0 to |l|
      invariant |es| == i
      invariant forall j | 0 <= j < i :: Encodable(l[j]) && Encodes(l[j], es[j])
    {
      var e := FromValue(l[i]);
      if e.Panic? { return Panic; }
      es := es + [e.value];
    }
    r := Ok(es);
  }

  /** Makes a slice of `len(v)` nil entries, then appends the real ones. */
  method FromMap(a: GoAny) returns (r: Outcome<seq<MapEntry>>)
    requires a.Map?
    ensures r.Ok? <==> Encodable(a)
    ensures r.Ok? ==> exists ps :: ListsMap(ps, a.m) && EncodesPadded(a, ps, r.value)
    decreases a, 0
  {
    var es, rest := Padding(|a.m|), a.m.Keys;
    ghost var ps: seq<MapPair> := [];
    ghost var tail: seq<MapEntry> := [];
    while rest != {}
      invariant es == Padding(|a.m|) + tail
      invariant Visited(a, rest, ps, tail)
      decreases rest
    {
      var k :| k in rest;
      var ek := FromValue(k);
      var ev := FromValue(a.m[k]);
      if ek.Panic? || ev.Panic? { return Panic; }
      var e := MapEntry(Some(ek.value), Some(ev.value));
      Visit(a, rest, ps, tail, k, e);
      es, ps, tail, rest := es + [e], ps + [MapPair(k, a.m[k])], tail + [e], rest - {k};
    }
    VisitedAll(a, ps, tail);
    r := Ok(es);
  }

  /** All keys but `rest` have been visited: `tail` encodes their pairs. */
  ghost predicate Visited(a: GoAny, rest: set<GoAny>, ps: seq<MapPair>, tail: seq<MapEntry>)
    requires a.Map?
  {
    && rest <= a.m.Keys
    && ListsMap(ps, a.m - rest)
    && Inside(a, ps) && EncodesPairs(a, ps, tail)
    && forall k | k in a.m && k !in rest :: Encodable(k) && Encodable(a.m[k])
  }

  lemma Visit(a: GoAny, rest: set<GoAny>, ps: seq<MapPair>, tail: seq<MapEntry>, k: GoAny, e: MapEntry)
    requires a.Map? && Visited(a, rest, ps, tail) && k in rest && e.k.Some? && e.v.Some?
    requires Encodable(k) && Encodable(a.m[k]) && Encodes(k, e.k.value) && Encodes(a.m[k], e.v.value)
    ensures Visited(a, rest - {k}, ps + [MapPair(k, a.m[k])], tail + [e])
  {
    ListingExtends(ps, a.m, rest, k);
    PairsExtend(a, ps, tail, MapPair(k, a.m[k]), e);
  }

  lemma VisitedAll(a: GoAny, ps: seq<MapPair>, tail: seq<MapEntry>)
    requires a.Map? && Visited(a, {}, ps, tail)
    ensures ListsMap(ps, a.m) && EncodesPadded(a, ps, Padding(|a.m|) + tail) && Encodable(a)
  {
    assert a.m - {} == a.m;
    ListingCount(ps, a.m);
    assert (Padding(|a.m|) + tail)[|ps|..] == tail;
  }

  lemma ListingExtends(ps: seq<MapPair>, m: map<GoAny, GoAny>, rest: set<GoAny>, k: GoAny)
    requires rest <= m.Keys && k in rest && ListsMap(ps, m - rest)
    ensures ListsMap(ps + [MapPair(k, m[k])], m - (rest - {k}))
  {
    var ps' := ps + [MapPair(k, m[k])];
    forall i, j | 0 <= i < j < |ps'|
      ensures ps'[i].key != ps'[j].key
    {
      assert ps[i] in ps;
    }
    assert forall x | x in m - (rest - {k}) :: x == k || x in m - rest;
    assert ps'[|ps|] in ps';
  }

  lemma ListingCount(ps: seq<MapPair>, m: map<GoAny, GoAny>)
    requires ListsMap(ps, m)
    ensures |ps| == |m|
  {
    var ks := seq(|ps|, i requires 0 <= i < |ps| => ps[i].key);
    forall k
      ensures k in ks <==> k in m.Keys
    {
      if k in ks {
        var i :| 0 <= i < |ks| && ks[i] == k;
        assert ps[i] in ps;
      }
      if k in m {
        var i :| 0 <= i < |ps| && ps[i] == MapPair(k, m[k]);
        assert ks[i] == k;
      }
    }
    IteratesCount(ks, m.Keys);
    assert |m| == |m.Keys|;
  }

  lemma PairsExtend(a: GoAny, ps: seq<MapPair>, es: seq<MapEntry>, p: MapPair, e: MapEntry)
    requires Inside(a, ps) && EncodesPairs(a, ps, es)
    requires p.key < a && p.val < a
    requires e.k.Some? && e.v.Some? && Encodes(p.key, e.k.value) && Encodes(p.val, e.v.value)
    ensures Inside(a, ps + [p]) && EncodesPairs(a, ps + [p], es + [e])
  {
  }

  method FromPairs(a: GoAny) returns (r: Outcome<seq<MapEntry>>)
    requires a.MapPairs?
    ensures r.Ok? <==> Encodable(a)
    ensures r.Ok? ==> EncodesPadded(a, a.ps, r.value)
    decreases a, 0
  {
    var es := Padding(|a.ps|);
    ghost var tail: seq<MapEntry> := [];
    for i := 0 to |a.ps|
      invariant es == Padding(|a.ps|) + tail
      invariant Inside(a, a.ps[..i]) && EncodesPairs(a, a.ps[..i], tail)
      invariant forall p | p in a.ps[..i] :: Encodable(p.key) && Encodable(p.val)
    {
      var p := a.ps[i];
      assert p < a;
      var ek := FromValue(p.key);
      var ev := FromValue(p.val);
      if ek.Panic? || ev.Panic? { return Panic; }
      var e := MapEntry(Some(ek.value), Some(ev.value));
      PairsExtend(a, a.ps[..i], tail, p, e);
      assert a.ps[..i + 1] == a.ps[..i] + [p];
      es, tail := es + [e], tail + [e];
    }
    assert a.ps[..|a.ps|] == a.ps;
    assert es[|a.ps|..] == tail;
    r := Ok(es);
  }

  method FromJson(a: GoAny) returns (r: Outcome<seq<JsonEntry>>)
    requires a.JsonValue?
    ensures r.Ok? <==> Encodable(a)
    ensures r.Ok? ==> exists ks :: EncodesJsonInOrder(a, ks, r.value)
    decreases a, 0
  {
    var es, rest := JsonPadding(|a.j|), a.j.Keys;
    ghost var ks: seq<Text> := [];
    ghost var tail: seq<JsonEntry> := [];
    while rest != {}
      invariant es == JsonPadding(|a.j|) + tail
      invariant VisitedJson(a, rest, ks, tail)
      decreases rest
    {
      var k :| k in rest;
      var ev := FromValue(a.j[k]);
      if ev.Panic? { return Panic; }
      var e := JsonEntry(k, Some(ev.value));
      VisitJson(a, rest, ks, tail, e);
      es, ks, tail, rest := es + [e], ks + [k], tail + [e], rest - {k};
    }
    VisitedAllJson(a, ks, tail);
    r := Ok(es);
  }

  /** All keys but `rest` have been visited: `tail` encodes their entries. */
  ghost predicate VisitedJson(a: GoAny, rest: set<Text>, ks: seq<Text>, tail: seq<JsonEntry>)
    requires a.JsonValue?
  {
    && rest <= a.j.Keys
    && Iterates(ks, a.j.Keys - rest)
    && EncodesJsonEntries(a, ks, tail)
    && forall k | k in a.j && k !in rest :: Encodable(a.j[k])
  }

  lemma VisitJson(a: GoAny, rest: set<Text>, ks: seq<Text>, tail: seq<JsonEntry>, e: JsonEntry)
    requires a.JsonValue? && VisitedJson(a, rest, ks, tail) && e.key in rest && e.v.Some?
    requires Encodable(a.j[e.key]) && Encodes(a.j[e.key], e.v.value)
    ensures VisitedJson(a, rest - {e.key}, ks + [e.key], tail + [e])
  {
  }

  lemma VisitedAllJson(a: GoAny, ks: seq<Text>, tail: seq<JsonEntry>)
    requires a.JsonValue? && VisitedJson(a, {}, ks, tail)
    ensures EncodesJsonInOrder(a, ks, JsonPadding(|a.j|) + tail) && Encodable(a)
  {
    IteratesCount(ks, a.j.Keys);
    assert |a.j| == |a.j.Keys|;
    assert (JsonPadding(|a.j|) + tail)[|ks|..] == tail;
  }

  // ----- Response path: what the Rust decoder makes of it -----

  /** Every JSON value reached inside `a` is empty. */
  ghost predicate JsonEmpty(a: GoAny)
  {
    match a
    case Slice(l) => forall i | 0 <= i < |l| :: JsonEmpty(l[i])
    case Map(m) => forall k | k in m :: JsonEmpty(k) && JsonEmpty(m[k])
    case MapPairs(ps) => forall p | p in ps :: JsonEmpty(p.key) && JsonEmpty(p.val)
    case OpResults(l) => forall i | 0 <= i < |l| :: JsonEmpty(l[i])
    case JsonValue(j) => j == map[]
    case _ => true
  }

  /** No two keys of any one Go map have the same meaning. */
  ghost predicate KeysStayDistinct(a: GoAny)
  {
    match a
    case Slice(l) => forall i | 0 <= i < |l| :: KeysStayDistinct(l[i])
    case Map(m) => InjectiveKeys(m) && forall k | k in m :: KeysStayDistinct(k) && KeysStayDistinct(m[k])
    case MapPairs(ps) => forall p | p in ps :: KeysStayDistinct(p.key) && KeysStayDistinct(p.val)
    case OpResults(l) => forall i | 0 <= i < |l| :: KeysStayDistinct(l[i])
    case _ => true
  }

  lemma ScalarDecodes(x: GoScalar)
    ensures P.Decode(Value(Some(ScalarOneof(x)))) == Ok(ScalarMeaning(x))
  {
  }

  /** The Rust decoder skips the padding entries in front of a map. */
  lemma {:induction false} PaddingSkipped(n: nat, es: seq<MapEntry>)
    ensures P.DecodeMap(Padding(n) + es) == P.DecodeMap(es)
    decreases |es|, n
  {
    var all := Padding(n) + es;
    if es != [] {
      assert all[..|all| - 1] == Padding(n) + es[..|es| - 1];
      PaddingSkipped(n, es[..|es| - 1]);
    } else if n > 0 {
      assert all[..|all| - 1] == Padding(n - 1) + es;
      PaddingSkipped(n - 1, es);
    }
  }

  /** A response decodes exactly when it holds no non-empty JSON value: the JSON decoder does not
      skip padding. */
  lemma {:induction false} ResponseDecodes(a: GoAny, w: Value)
    requires Encodes(a, w)
    ensures P.Decodable(w) <==> JsonEmpty(a)
    decreases a, 1
  {
    match a
    case Scalar(x) =>
      ScalarDecodes(x);
      P.DecodeTotal(w);
    case Slice(l) =>
      forall i | 0 <= i < |l| ensures P.Decodable(w.v.value.l[i]) <==> JsonEmpty(l[i]) {
        ResponseDecodes(l[i], w.v.value.l[i]);
      }
    case OpResults(l) =>
      forall i | 0 <= i < |l| ensures P.Decodable(w.v.value.l[i]) <==> JsonEmpty(l[i]) {
        ResponseDecodes(l[i], w.v.value.l[i]);
      }
    case Map(m) =>
      var ps :| ListsMap(ps, m) && EncodesPadded(a, ps, w.v.value.m);
      PairsDecode(a, ps, w.v.value.m);
      assert JsonEmpty(a) <==> forall p: MapPair | p in ps :: JsonEmpty(p.key) && JsonEmpty(p.val) by {
        forall k | k in m ensures MapPair(k, m[k]) in ps {}
      }
    case MapPairs(ps) =>
      PairsDecode(a, ps, w.v.value.m);
    case JsonValue(j) =>
      var es := w.v.value.j;
      var ks :| EncodesJsonInOrder(a, ks, es);
      if |ks| > 0 {
        assert es[0] == es[..|ks|][0] == EMPTY_JSON_ENTRY;
        assert ks[0] in j;
      } else {
        assert forall k | k in j :: k in ks;
        assert j == map[];
      }
    case _ =>
  }

  lemma {:induction false} PairsDecode(a: GoAny, ps: seq<MapPair>, es: seq<MapEntry>)
    requires Inside(a, ps) && EncodesPadded(a, ps, es)
    ensures P.Decodable(Value(Some(MapV(es))))
            <==> forall p | p in ps :: JsonEmpty(p.key) && JsonEmpty(p.val)
    decreases a, 0
  {
    var n, tail := |ps|, es[|ps|..];
    forall i | 0 <= i < n
      ensures EntryDecodable(tail[i]) <==> JsonEmpty(ps[i].key) && JsonEmpty(ps[i].val)
    {
      assert ps[i] in ps;
      ResponseDecodes(ps[i].key, tail[i].k.value);
      ResponseDecodes(ps[i].val, tail[i].v.value);
    }
    PaddedDecodable(n, es);
    if forall i | 0 <= i < n :: EntryDecodable(tail[i]) {
      forall p | p in ps
        ensures JsonEmpty(p.key) && JsonEmpty(p.val)
      {
        var i :| 0 <= i < n && ps[i] == p;
        assert EntryDecodable(tail[i]);
      }
    } else {
      var i :| 0 <= i < n && !EntryDecodable(tail[i]);
      assert ps[i] in ps;
    }
  }

  ghost predicate EntryDecodable(e: MapEntry) {
    e.k.Some? ==> e.v.Some? && P.Decodable(e.k.value) && P.Decodable(e.v.value)
  }

  lemma PaddedDecodable(n: nat, es: seq<MapEntry>)
    requires n <= |es| && es[..n] == Padding(n)
    ensures P.Decodable(Value(Some(MapV(es)))) <==> forall i | 0 <= i < |es| - n :: EntryDecodable(es[n..][i])
  {
    assert P.Decodable(Value(Some(MapV(es)))) <==> forall i | 0 <= i < |es| :: EntryDecodable(es[i]);
    forall i | 0 <= i < n ensures EntryDecodable(es[i]) {
      assert es[i] == es[..n][i] == EMPTY_ENTRY;
    }
    forall i | n <= i < |es| ensures es[i] == es[n..][i - n] {
    }
  }

  /** The PHP reader sees the meaning of the Go value: list elements in order, and exactly the
      original key/value pairs of every map in spite of the padding, whatever the iteration order. */
  lemma {:induction false} ResponseMeans(a: GoAny, w: Value)
    requires Encodes(a, w) && JsonEmpty(a) && KeysStayDistinct(a)
    ensures P.Decode(w) == Ok(Meaning(a))
    decreases a, 1
  {
    match a
    case Scalar(x) => ScalarDecodes(x);
    case Slice(l) => ElementsMean(a, l, w.v.value.l);
    case OpResults(l) => ElementsMean(a, l, w.v.value.l);
    case Map(m) =>
      var ps := MapMeans(a, w);
      MapDecodes(a, w, ps);
    case MapPairs(ps) => PairsMean(a, ps, w.v.value.m);
    case JsonValue(j) => EmptyJsonMeans(a, w.v.value.j);
    case _ =>
  }

  lemma {:induction false} ElementsMean(a: GoAny, l: seq<GoAny>, ws: seq<Value>)
    requires |l| == |ws| && forall i | 0 <= i < |l| :: l[i] < a && Encodes(l[i], ws[i])
    requires forall i | 0 <= i < |l| :: JsonEmpty(l[i]) && KeysStayDistinct(l[i])
    ensures P.DecodeList(ws) == Ok(Meanings(a, l))
    decreases a, 0
  {
    forall i | 0 <= i < |l| ensures P.Decode(ws[i]) == Ok(Meaning(l[i])) {
      ResponseMeans(l[i], ws[i]);
    }
    P.DecodeListElementwise(ws, Meanings(a, l));
  }

  lemma EmptyJsonMeans(a: GoAny, es: seq<JsonEntry>)
    requires a == JsonValue(map[]) && exists ks :: EncodesJsonInOrder(a, ks, es)
    ensures P.DecodeJson(es) == Ok(Meaning(a).j)
  {
    var ks :| EncodesJsonInOrder(a, ks, es);
    IteratesCount(ks, a.j.Keys);
    assert es == [];
    assert Meaning(a).j == map[];
  }

  lemma {:induction false} MapMeans(a: GoAny, w: Value) returns (ps: seq<MapPair>)
    requires a.Map? && Encodes(a, w) && JsonEmpty(a) && KeysStayDistinct(a)
    ensures w.v.Some? && w.v.value.MapV? && Inside(a, ps)
    ensures P.DecodeMap(w.v.value.m) == Ok(InsertAll(PairMeanings(a, ps)))
    ensures Meaning(a) == P.HashMap(InsertAll(PairMeanings(a, ps)))
    decreases a, 0, 2
  {
    ps := Listing(a, w);
    ListedPairsMean(a, ps, w.v.value.m);
    ListingMeansMap(a, ps);
  }

  lemma MapDecodes(a: GoAny, w: Value, ps: seq<MapPair>)
    requires w.v.Some? && w.v.value.MapV? && Inside(a, ps)
    requires P.DecodeMap(w.v.value.m) == Ok(InsertAll(PairMeanings(a, ps)))
    requires Meaning(a) == P.HashMap(InsertAll(PairMeanings(a, ps)))
    ensures P.Decode(w) == Ok(Meaning(a))
  {
  }

  lemma Listing(a: GoAny, w: Value) returns (ps: seq<MapPair>)
    requires a.Map? && Encodes(a, w)
    ensures w.v.Some? && w.v.value.MapV? && ListsMap(ps, a.m) && Inside(a, ps)
    ensures EncodesPadded(a, ps, w.v.value.m)
  {
    ps :| ListsMap(ps, a.m) && EncodesPadded(a, ps, w.v.value.m);
  }

  lemma ListingMeansMap(a: GoAny, ps: seq<MapPair>)
    requires a.Map? && ListsMap(ps, a.m) && Inside(a, ps) && InjectiveKeys(a.m)
    ensures Meaning(a) == P.HashMap(InsertAll(PairMeanings(a, ps)))
  {
    MapHasMeaning(a);
    ListingMeans(a, a.m, ps);
  }

  lemma MapHasMeaning(a: GoAny)
    requires a.Map?
    ensures Meaning(a) == P.HashMap(MapMeaning(a, a.m))
  {
  }

  lemma {:induction false} ListedPairsMean(a: GoAny, ps: seq<MapPair>, es: seq<MapEntry>)
    requires a.Map? && ListsMap(ps, a.m) && Inside(a, ps) && EncodesPadded(a, ps, es)
    requires JsonEmpty(a) && KeysStayDistinct(a)
    ensures InjectiveKeys(a.m)
    ensures P.DecodeMap(es) == Ok(InsertAll(PairMeanings(a, ps)))
    decreases a, 0, 1
  {
    PairsMean(a, ps, es);
  }

  lemma {:induction false} PairsMean(a: GoAny, ps: seq<MapPair>, es: seq<MapEntry>)
    requires Inside(a, ps) && EncodesPadded(a, ps, es)
    requires forall p | p in ps :: JsonEmpty(p.key) && JsonEmpty(p.val)
    requires forall p | p in ps :: KeysStayDistinct(p.key) && KeysStayDistinct(p.val)
    ensures P.DecodeMap(es) == Ok(InsertAll(PairMeanings(a, ps)))
    decreases a, 0, 0
  {
    var n, tail := |ps|, es[|ps|..];
    forall i | 0 <= i < n
      ensures P.Carries(tail[i], PairMeanings(a, ps)[i])
    {
      assert ps[i] in ps;
      ResponseMeans(ps[i].key, tail[i].k.value);
      ResponseMeans(ps[i].val, tail[i].v.value);
    }
    P.DecodeMapEntrywise(tail, PairMeanings(a, ps));
    PaddingSkipped(n, tail);
    assert es == Padding(n) + tail;
  }

  lemma ListingMeans(a: GoAny, m: map<GoAny, GoAny>, ps: seq<MapPair>)
    requires forall k | k in m :: k < a && m[k] < a
    requires ListsMap(ps, m) && Inside(a, ps) && InjectiveKeys(m)
    ensures InsertAll(PairMeanings(a, ps)) == MapMeaning(a, m)
  {
    var qs, n := PairMeanings(a, ps), MapMeaning(a, m);
    forall i | 0 <= i < |qs|
      ensures qs[i].0 in n && n[qs[i].0] == qs[i].1
    {
      assert ps[i] in ps;
      MeaningAt(a, m, ps[i].key);
    }
    forall i, j | 0 <= i < j < |qs|
      ensures qs[i].0 != qs[j].0
    {
      assert ps[i] in ps && ps[j] in ps;
    }
    forall x | x in n
      ensures exists i :: 0 <= i < |qs| && qs[i].0 == x
    {
      var k := MeaningFrom(a, m, x);
      assert MapPair(k, m[k]) in ps;
      var i :| 0 <= i < |ps| && ps[i] == MapPair(k, m[k]);
      assert qs[i].0 == x;
    }
    InsertAllLists(qs, n);
  }

  // ----- Request path: toValue -----

  /** Go can use the value as a map key; the byte, list, map and JSON values are slices and maps. */
  predicate Hashable(g: GoAny) {
    g.Scalar? && match g.scalar
                 case GoBytes(_) => false
                 case BytesValue(_) => false
                 case HllValue(_) => false
                 case _ => true
  }

  function ToScalar(v: Oneof): GoScalar
    requires !v.ListV? && !v.MapV? && !v.JsonV?
  {
    match v
    case NilV(_) => NullValue
    case IntV(i) => IntegerValue(i)
    case StrV(s) => StringValue(s)
    case FloatV(f) => FloatValue(f)
    case BoolV(b) => BoolValue(b)
    case BlobV(b) => BytesValue(b)
    case GeoV(s) => GeoJsonValue(s)
    case HllV(b) => HllValue(b)
    case WildcardV(_) => WildcardValue
    case InfinityV(_) => InfinityValue
  }

  /** `toValue` on a possibly missing message, which is null. */
  function ToOptionalValue(w: Option<Value>): Outcome<GoAny>
    decreases w
  {
    if w.Some? then ToValue(w.value) else Ok(Scalar(NullValue))
  }

  /** `toValue` on a message: an unset oneof or an unhashable map key panics. */
  function ToValue(w: Value): Outcome<GoAny>
    decreases w
  {
    if w.v.None? then Panic else
    match w.v.value
    case JsonV(j) => var r := ToJson(j); if r.Ok? then Ok(JsonValue(r.value)) else Panic
    case MapV(m) => var r := ToMap(m); if r.Ok? then Ok(MapValue(r.value)) else Panic
    case ListV(l) => var r := ToList(l); if r.Ok? then Ok(ListValue(r.value)) else Panic
    case v => Ok(Scalar(ToScalar(v)))
  }

  function ToList(l: seq<Value>): Outcome<seq<GoAny>>
    decreases l
  {
    if l == [] then Ok([]) else
    var init, last := ToList(l[..|l| - 1]), ToValue(l[|l| - 1]);
    if init.Ok? && last.Ok? then Ok(init.value + [last.value]) else Panic
  }

  function ToMap(es: seq<MapEntry>): Outcome<map<GoAny, GoAny>>
    decreases es
  {
    if es == [] then Ok(map[]) else
    var init, e := ToMap(es[..|es| - 1]), ToEntry(es[|es| - 1]);
    if init.Ok? && e.Ok? then Ok(init.value[e.value.0 := e.value.1]) else Panic
  }

  function ToEntry(e: MapEntry): Outcome<(GoAny, GoAny)>
    decreases e
  {
    var k, v := ToOptionalValue(e.k), ToOptionalValue(e.v);
    if k.Ok? && v.Ok? && Hashable(k.value) then Ok((k.value, v.value)) else Panic
  }

  function ToJson(es: seq<JsonEntry>): Outcome<map<Text, GoAny>>
    decreases es
  {
    if es == [] then Ok(map[]) else
    var init, v := ToJson(es[..|es| - 1]), ToJsonEntry(es[|es| - 1]);
    if init.Ok? && v.Ok? then Ok(init.value[es[|es| - 1].key := v.value]) else Panic
  }

  function ToJsonEntry(e: JsonEntry): Outcome<GoAny>
    decreases e
  {
    ToOptionalValue(e.v)
  }

  /** The conversion as the source runs it, filling a slice or a map element by element. */
  method ToValueStepwise(w: Value) returns (r: Outcome<GoAny>)
    ensures r == ToValue(w)
    decreases w
  {
    if w.v.None? {
      return Panic;
    }
    match w.v.value
    case ListV(l) =>
      var es := ToListStepwise(l);
      r := if es.Ok? then Ok(ListValue(es.value)) else Panic;
    case MapV(es) =>
      var m := ToMapStepwise(es);
      r := if m.Ok? then Ok(MapValue(m.value)) else Panic;
    case JsonV(es) =>
      var j := ToJsonStepwise(es);
      r := if j.Ok? then Ok(JsonValue(j.value)) else Panic;
    case _ =>
      r := ToValue(w);
  }

  method ToJsonStepwise(es: seq<JsonEntry>) returns (r: Outcome<map<Text, GoAny>>)
    ensures r == ToJson(es)
    decreases es
  {
    r := Ok(map[]);
    for i := 0 to |es|
      invariant r == ToJson(es[..i])
    {
      assert es[..i + 1][..i] == es[..i];
      var v := ToJsonEntry(es[i]);
      r := if r.Ok? && v.Ok? then Ok(r.value[es[i].key := v.value]) else Panic;
    }
    assert es[..|es|] == es;
  }

  method ToListStepwise(l: seq<Value>) returns (r: Outcome<seq<GoAny>>)
    ensures r == ToList(l)
    decreases l
  {
    r := Ok([]);
    for i := 0 to |l|
      invariant r == ToList(l[..i])
    {
      assert l[..i + 1][..i] == l[..i];
      var e := ToValueStepwise(l[i]);
      r := if r.Ok? && e.Ok? then Ok(r.value + [e.value]) else Panic;
    }
    assert l[..|l|] == l;
  }

  method ToMapStepwise(es: seq<MapEntry>) returns (r: Outcome<map<GoAny, GoAny>>)
    ensures r == ToMap(es)
    decreases es
  {
    r := Ok(map[]);
    for i := 0 to |es|
      invariant r == ToMap(es[..i])
    {
      assert es[..i + 1][..i] == es[..i];
      var e := ToEntry(es[i]);
      r := if r.Ok? && e.Ok? then Ok(r.value[e.value.0 := e.value.1]) else Panic;
    }
    assert es[..|es|] == es;
  }

  /** Every message is set at every depth and no map has a padding entry. */
  ghost predicate Filled(w: Value)
  {
    && w.v.Some?
    && match w.v.value
       case ListV(l) => forall i | 0 <= i < |l| :: Filled(l[i])
       case MapV(m) =>
         forall i | 0 <= i < |m| ::
           m[i].k.Some? && m[i].v.Some? && Filled(m[i].k.value) && Filled(m[i].v.value)
       case JsonV(j) => forall i | 0 <= i < |j| :: j[i].v.Some? && Filled(j[i].v.value)
       case _ => true
  }

  /** The Go and the Rust decoder agree on `w`, if Go accepts it. */
  ghost predicate Agree(w: Value) {
    ToValue(w).Ok? ==> P.Decode(w) == Ok(Meaning(ToValue(w).value)) && Canonical(ToValue(w).value)
  }

  /** Only scalars of the types `toValue` produces: on the hashable ones `Meaning` is injective. */
  predicate Canonical(g: GoAny) {
    g.Scalar? ==> g.scalar.NullValue? || g.scalar.IntegerValue? || g.scalar.StringValue?
                  || g.scalar.FloatValue? || g.scalar.BoolValue? || g.scalar.BytesValue?
                  || g.scalar.HllValue? || g.scalar.GeoJsonValue? || g.scalar.WildcardValue?
                  || g.scalar.InfinityValue?
  }

  predicate MapKey(g: GoAny) {
    Hashable(g) && Canonical(g)
  }

  lemma KeyMeaningInjective(g: GoAny, h: GoAny)
    requires MapKey(g) && MapKey(h) && Meaning(g) == Meaning(h)
    ensures g == h
  {
  }

  lemma {:induction false} ListsAgree(l: seq<Value>, a: GoAny)
    requires a.ListValue? && ToList(l) == Ok(a.l) && forall i | 0 <= i < |l| :: Agree(l[i])
    ensures P.DecodeList(l) == Ok(Meanings(a, a.l))
  {
    ToListAt(l);
    P.DecodeListElementwise(l, Meanings(a, a.l));
  }

  lemma {:induction false} ToListAt(l: seq<Value>)
    requires ToList(l).Ok?
    ensures |ToList(l).value| == |l|
    ensures forall i | 0 <= i < |l| :: ToValue(l[i]) == Ok(ToList(l).value[i])
  {
    if l != [] {
      ToListAt(l[..|l| - 1]);
    }
  }

  ghost predicate EntryAgrees(e: MapEntry) {
    e.k.Some? && e.v.Some? && Agree(e.k.value) && Agree(e.v.value)
  }

  lemma EntryCarries(e: MapEntry)
    requires EntryAgrees(e) && ToEntry(e).Ok?
    ensures var g := ToEntry(e).value;
      MapKey(g.0) && P.Carries(e, (Meaning(g.0), Meaning(g.1)))
  {
    assert ToOptionalValue(e.k) == ToValue(e.k.value) && ToOptionalValue(e.v) == ToValue(e.v.value);
  }

  /** Both decoders insert the entries in the same order; `gs` are Go's. */
  lemma {:induction false} ToMapAt(es: seq<MapEntry>) returns (gs: seq<(GoAny, GoAny)>)
    requires ToMap(es).Ok? && forall i | 0 <= i < |es| :: EntryAgrees(es[i])
    ensures |gs| == |es| && ToMap(es) == Ok(InsertAll(gs))
    ensures forall i | 0 <= i < |gs| ::
              MapKey(gs[i].0) && P.Carries(es[i], (Meaning(gs[i].0), Meaning(gs[i].1)))
  {
    gs := [];
    if es != [] {
      gs := ToMapAt(es[..|es| - 1]);
      var e := es[|es| - 1];
      EntryCarries(e);
      assert (gs + [ToEntry(e).value])[..|gs|] == gs;
      gs := gs + [ToEntry(e).value];
    }
  }

  lemma MapsAgree(es: seq<MapEntry>, a: GoAny)
    requires a.MapValue? && ToMap(es) == Ok(a.m) && forall i | 0 <= i < |es| :: EntryAgrees(es[i])
    ensures P.DecodeMap(es) == Ok(MapMeaning(a, a.m))
  {
    var gs := ToMapAt(es);
    var qs := seq(|gs|, i requires 0 <= i < |gs| => (Meaning(gs[i].0), Meaning(gs[i].1)));
    P.DecodeMapEntrywise(es, qs);
    InsertedMeans(a, gs, qs);
  }

  lemma InsertedMeans(a: GoAny, gs: seq<(GoAny, GoAny)>, qs: seq<(P.PhpValue, P.PhpValue)>)
    requires a == MapValue(InsertAll(gs)) && |gs| == |qs|
    requires forall i | 0 <= i < |gs| :: MapKey(gs[i].0) && qs[i] == (Meaning(gs[i].0), Meaning(gs[i].1))
    ensures InsertAll(qs) == MapMeaning(a, a.m)
  {
    var m, d, n := a.m, InsertAll(qs), MapMeaning(a, a.m);
    InsertAllKeys(gs);
    InsertAllKeys(qs);
    forall x | x in d
      ensures x in n && d[x] == n[x]
    {
      var i :| 0 <= i < |qs| && qs[i].0 == x;
      InsertedAt(a, gs, qs, i);
    }
    forall x | x in n
      ensures x in d
    {
      var k := MeaningFrom(a, m, x);
      var i :| 0 <= i < |gs| && gs[i].0 == k;
      assert qs[i].0 == x;
    }
  }

  lemma InsertedAt(a: GoAny, gs: seq<(GoAny, GoAny)>, qs: seq<(P.PhpValue, P.PhpValue)>, i: nat)
    requires a == MapValue(InsertAll(gs)) && |gs| == |qs| && i < |qs|
    requires forall i | 0 <= i < |gs| :: MapKey(gs[i].0) && qs[i] == (Meaning(gs[i].0), Meaning(gs[i].1))
    ensures qs[i].0 in InsertAll(qs) && qs[i].0 in MapMeaning(a, a.m)
    ensures InsertAll(qs)[qs[i].0] == MapMeaning(a, a.m)[qs[i].0]
  {
    InsertedKeysInjective(gs, qs);
    var j := InsertAllInStep(gs, qs, i);
    MeaningAt(a, a.m, gs[i].0);
  }

  lemma InsertedKeysInjective(gs: seq<(GoAny, GoAny)>, qs: seq<(P.PhpValue, P.PhpValue)>)
    requires |gs| == |qs|
    requires forall i | 0 <= i < |gs| :: MapKey(gs[i].0) && qs[i] == (Meaning(gs[i].0), Meaning(gs[i].1))
    ensures InjectiveKeys(InsertAll(gs))
    ensures forall i, j :: 0 <= i < |gs| && 0 <= j < |gs| ==> (gs[i].0 == gs[j].0 <==> qs[i].0 == qs[j].0)
  {
    InsertAllKeys(gs);
    forall i, j | 0 <= i < |gs| && 0 <= j < |gs| && qs[i].0 == qs[j].0
      ensures gs[i].0 == gs[j].0
    {
      KeyMeaningInjective(gs[i].0, gs[j].0);
    }
    forall k, k' | k in InsertAll(gs) && k' in InsertAll(gs) && Meaning(k) == Meaning(k')
      ensures k == k'
    {
      var i :| 0 <= i < |gs| && gs[i].0 == k;
      var j :| 0 <= j < |gs| && gs[j].0 == k';
      KeyMeaningInjective(k, k');
    }
  }

  lemma {:induction false} JsonsAgree(es: seq<JsonEntry>)
    requires ToJson(es).Ok? && forall i | 0 <= i < |es| :: es[i].v.Some? && Agree(es[i].v.value)
    ensures P.DecodeJson(es).Ok? && P.DecodeJson(es).value.Keys == ToJson(es).value.Keys
    ensures forall k | k in ToJson(es).value :: P.DecodeJson(es).value[k] == Meaning(ToJson(es).value[k])
  {
    if es != [] {
      var init, e := es[..|es| - 1], es[|es| - 1];
      JsonsAgree(init);
      assert Agree(e.v.value);
      assert ToJsonEntry(e) == ToValue(e.v.value);
    }
  }

  /** On every filled message Go accepts, the Rust decoder yields exactly the meaning of the value
      Go sees: the two decoders implement one format. */
  lemma {:induction false} DecodersAgree(w: Value)
    requires Filled(w)
    ensures Agree(w)
  {
    if ToValue(w).Ok? {
      match w.v.value
      case ListV(l) =>
        forall i | 0 <= i < |l| ensures Agree(l[i]) { DecodersAgree(l[i]); }
        ListsAgree(l, ToValue(w).value);
      case MapV(es) =>
        forall i | 0 <= i < |es| ensures EntryAgrees(es[i]) {
          DecodersAgree(es[i].k.value);
          DecodersAgree(es[i].v.value);
        }
        MapsAgree(es, ToValue(w).value);
      case JsonV(es) =>
        forall i | 0 <= i < |es| ensures Agree(es[i].v.value) { DecodersAgree(es[i].v.value); }
        JsonsAgree(es);
        assert P.DecodeJson(es).value == Meaning(ToValue(w).value).j;
      case _ =>
    }
  }

  // ----- Which `PHPValue`s Go accepts -----

  predicate ScalarKey(v: P.PhpValue) {
    v.Nil? || v.Bool? || v.Int? || v.UInt? || v.Float? || v.Str? || v.GeoJson? || v.Wildcard? || v.Infinity?
  }

  /** Every key of every map is a scalar other than a blob or HLL value. */
  ghost predicate ScalarKeys(v: P.PhpValue)
  {
    match v
    case List(l) => forall i | 0 <= i < |l| :: ScalarKeys(l[i])
    case HashMap(m) => forall k | k in m :: ScalarKey(k) && ScalarKeys(m[k])
    case Json(j) => forall k | k in j :: ScalarKeys(j[k])
    case _ => true
  }

  lemma {:induction false} ToListTotal(l: seq<Value>)
    ensures ToList(l).Ok? <==> forall i | 0 <= i < |l| :: ToValue(l[i]).Ok?
  {
    if l != [] {
      var init := l[..|l| - 1];
      ToListTotal(init);
      assert forall i | 0 <= i < |init| :: init[i] == l[i];
    }
  }

  lemma {:induction false} ToMapTotal(es: seq<MapEntry>)
    ensures ToMap(es).Ok? <==> forall i | 0 <= i < |es| :: ToEntry(es[i]).Ok?
  {
    if es != [] {
      var init := es[..|es| - 1];
      ToMapTotal(init);
      assert forall i | 0 <= i < |init| :: init[i] == es[i];
    }
  }

  lemma {:induction false} ToJsonTotal(es: seq<JsonEntry>)
    ensures ToJson(es).Ok? <==> forall i | 0 <= i < |es| :: ToJsonEntry(es[i]).Ok?
  {
    if es != [] {
      var init := es[..|es| - 1];
      ToJsonTotal(init);
      assert forall i | 0 <= i < |init| :: init[i] == es[i];
    }
  }

  /** Go accepts the encoding of a `PHPValue` exactly when all its map keys are scalars. */
  lemma {:induction false} RequestAccepted(v: P.PhpValue, w: Value)
    requires P.Encodes(v, w)
    ensures Filled(w)
    ensures ToValue(w).Ok? <==> ScalarKeys(v)
    decreases v, 1
  {
    match v
    case List(l) =>
      forall i | 0 <= i < |l|
        ensures Filled(w.v.value.l[i]) && (ToValue(w.v.value.l[i]).Ok? <==> ScalarKeys(l[i]))
      {
        RequestAccepted(l[i], w.v.value.l[i]);
      }
      ToListTotal(w.v.value.l);
    case HashMap(m) => HashMapRequestAccepted(v, w);
    case Json(j) => JsonRequestAccepted(v, w);
    case _ =>
  }

  lemma {:induction false} HashMapRequestAccepted(v: P.PhpValue, w: Value)
    requires v.HashMap? && P.Encodes(v, w)
    ensures Filled(w)
    ensures ToValue(w).Ok? <==> ScalarKeys(v)
    decreases v, 0, 1
  {
    var ks := P.IterationOrder(v, w);
    MapRequestAccepted(v, ks, w.v.value.m);
    FilledMap(w);
  }

  lemma FilledMap(w: Value)
    requires w.v.Some? && w.v.value.MapV? && forall i | 0 <= i < |w.v.value.m| :: FilledEntry(w.v.value.m[i])
    ensures Filled(w) && (ToValue(w).Ok? <==> ToMap(w.v.value.m).Ok?)
  {
  }

  lemma {:induction false} MapRequestAccepted(v: P.PhpValue, ks: seq<P.PhpValue>, es: seq<MapEntry>)
    requires v.HashMap? && P.EncodesMapInOrder(v, ks, es)
    ensures forall i | 0 <= i < |es| :: FilledEntry(es[i])
    ensures ToMap(es).Ok? <==> ScalarKeys(v)
    decreases v, 0, 0
  {
    forall i | 0 <= i < |es|
      ensures FilledEntry(es[i])
      ensures ToEntry(es[i]).Ok? <==> ScalarKey(ks[i]) && ScalarKeys(v.m[ks[i]])
    {
      RequestAccepted(ks[i], es[i].k.value);
      RequestAccepted(v.m[ks[i]], es[i].v.value);
      EntryAccepted(ks[i], es[i]);
    }
    ToMapTotal(es);
    AcceptedKeys(v, ks, es);
  }

  ghost predicate FilledEntry(e: MapEntry) {
    e.k.Some? && e.v.Some? && Filled(e.k.value) && Filled(e.v.value)
  }

  lemma EntryAccepted(k: P.PhpValue, e: MapEntry)
    requires e.k.Some? && e.v.Some? && P.Encodes(k, e.k.value)
    requires ToValue(e.k.value).Ok? <==> ScalarKeys(k)
    ensures ToEntry(e).Ok? <==> ScalarKey(k) && ToValue(e.v.value).Ok?
  {
    assert ScalarKey(k) ==> ScalarKeys(k);
  }

  lemma AcceptedKeys(v: P.PhpValue, ks: seq<P.PhpValue>, es: seq<MapEntry>)
    requires v.HashMap? && Iterates(ks, v.m.Keys) && |ks| == |es|
    requires forall i | 0 <= i < |es| ::
               ks[i] in v.m && (ToEntry(es[i]).Ok? <==> ScalarKey(ks[i]) && ScalarKeys(v.m[ks[i]]))
    ensures (forall i | 0 <= i < |es| :: ToEntry(es[i]).Ok?) <==> ScalarKeys(v)
  {
    assert forall k | k in v.m :: k in ks;
  }

  lemma {:induction false} JsonRequestAccepted(v: P.PhpValue, w: Value)
    requires v.Json? && P.Encodes(v, w)
    ensures Filled(w)
    ensures ToValue(w).Ok? <==> ScalarKeys(v)
    decreases v, 0
  {
    var es := w.v.value.j;
    var ks :| P.EncodesJsonInOrder(v, ks, es);
    forall i | 0 <= i < |es|
      ensures Filled(es[i].v.value) && (ToJsonEntry(es[i]).Ok? <==> ScalarKeys(v.j[ks[i]]))
    {
      RequestAccepted(v.j[ks[i]], es[i].v.value);
    }
    ToJsonTotal(es);
    assert forall k | k in v.j :: k in ks;
  }

  /** Write, then read back: a `PHPValue` that Go accepts comes back normalised, provided the value
      `a` the Go client hands out on the read means the same as the one handed in on the write. */
  lemma WriteThenRead(v: P.PhpValue, w: Value, a: GoAny, w': Value)
    requires P.Encodes(v, w) && ScalarKeys(v) && P.KeysStayDistinct(v)
    requires ToValue(w).Ok? ==> Meaning(a) == Meaning(ToValue(w).value)
    requires Encodes(a, w') && JsonEmpty(a) && KeysStayDistinct(a)
    ensures P.Decode(w') == Ok(P.Normalise(v))
  {
    RequestAccepted(v, w);
    DecodersAgree(w);
    P.RoundTrip(v, w);
    ResponseMeans(a, w');
  }
}
