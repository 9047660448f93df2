/** The Rust half of the value codec: `PHPValue`, its conversion to and from the wire, and the
    conversion of PHP arrays (src/lib.rs). */
module PhpCodec {
  import opened Basics
  import opened Wire

  datatype PhpValue =
    | Nil
    | Bool(b: bool)
    | Int(i: int64)
    | UInt(u: uint64)
    | Float(f: Double)
    | Str(s: Text)
    | Blob(blob: seq<byte>)
    | List(l: seq<PhpValue>)
    | HashMap(m: map<PhpValue, PhpValue>)
    | Json(j: map<Text, PhpValue>)
    | GeoJson(geo: Text)
    | Hll(hll: seq<byte>)
    | Wildcard
    | Infinity

  // ----- Encoding -----

  /** `w` is an encoding of `v` for some iteration order of each hash map inside `v`. */
  ghost predicate Encodes(v: PhpValue, w: Value)
    decreases v, 1
  {
    match v
    case Nil => w == Value(Some(NilV(true)))
    case Bool(b) => w == Value(Some(BoolV(b)))
    case Int(i) => w == Value(Some(IntV(i)))
    case UInt(u) => w == Value(Some(IntV(AsI64(u))))
    case Float(f) => w == Value(Some(FloatV(f)))
    case Str(s) => w == Value(Some(StrV(s)))
    case Blob(b) => w == Value(Some(BlobV(b)))
    case List(l) =>
      && w.v.Some? && w.v.value.ListV? && |w.v.value.l| == |l|
      && forall i | 0 <= i < |l| :: Encodes(l[i], w.v.value.l[i])
    case HashMap(m) =>
      && w.v.Some? && w.v.value.MapV?
      && exists ks :: EncodesMapInOrder(v, ks, w.v.value.m)
    case Json(j) =>
      && w.v.Some? && w.v.value.JsonV?
      && exists ks :: EncodesJsonInOrder(v, ks, w.v.value.j)
    case GeoJson(g) => w == Value(Some(GeoV(g)))
    case Hll(b) => w == Value(Some(HllV(b)))
    case Wildcard => w == Value(Some(WildcardV(true)))
    case Infinity => w == Value(Some(InfinityV(true)))
  }

  ghost predicate EncodesMapInOrder(v: PhpValue, ks: seq<PhpValue>, es: seq<MapEntry>)
    requires v.HashMap?
    decreases v, 0
  {
    && Iterates(ks, v.m.Keys)
    && |es| == |ks|
    && forall i | 0 <= i < |ks| ::
         && ks[i] in v.m
         && es[i].k.Some? && es[i].v.Some?
         && Encodes(ks[i], es[i].k.value) && Encodes(v.m[ks[i]], es[i].v.value)
  }

  ghost predicate EncodesJsonInOrder(v: PhpValue, ks: seq<Text>, es: seq<JsonEntry>)
    requires v.Json?
    decreases v, 0
  {
    && Iterates(ks, v.j.Keys)
    && |es| == |ks|
    && forall i | 0 <= i < |ks| ::
         ks[i] in v.j && es[i].key == ks[i] && es[i].v.Some? && Encodes(v.j[ks[i]], es[i].v.value)
  }

  lemma IterationOrder(v: PhpValue, w: Value) returns (ks: seq<PhpValue>)
    requires v.HashMap? && Encodes(v, w)
    ensures w.v.Some? && w.v.value.MapV? && EncodesMapInOrder(v, ks, w.v.value.m)
  {
    ks :| EncodesMapInOrder(v, ks, w.v.value.m);
  }

  /** `From<PHPValue> for proto::Value`. Each loop over a hash map takes the remaining keys in an
      arbitrary order. */
  method Encode(v: PhpValue) returns (w: Value)
    ensures Encodes(v, w)
    decreases v
  {
    match v
    case Nil => w := Value(Some(NilV(true)));
    case Bool(b) => w := Value(Some(BoolV(b)));
    case Int(i) => w := Value(Some(IntV(i)));
    case UInt(u) => w := Value(Some(IntV(AsI64(u))));
    case Float(f) => w := Value(Some(FloatV(f)));
    case Str(s) => w := Value(Some(StrV(s)));
    case Blob(b) => w := Value(Some(BlobV(b)));
    case List(l) =>
      var nl: seq<Value> := [];
      for i := 0 to |l|
        invariant |nl| == i
        invariant forall j | 0 <= j < i :: Encodes(l[j], nl[j])
      {
        var e := Encode(l[i]);
        nl := nl + [e];
      }
      w := Value(Some(ListV(nl)));
    case HashMap(m) =>
      var es: seq<MapEntry> := [];
      ghost var ks: seq<PhpValue> := [];
      var rest := m.Keys;
      while rest != {}
        invariant rest <= m.Keys
        invariant forall k :: k in ks <==> k in m.Keys && k !in rest
        invariant forall i, j :: 0 <= i < j < |ks| ==> ks[i] != ks[j]
        invariant |es| == |ks|
        invariant forall i | 0 <= i < |ks| ::
                    && ks[i] in m && es[i].k.Some? && es[i].v.Some?
                    && Encodes(ks[i], es[i].k.value) && Encodes(m[ks[i]], es[i].v.value)
        decreases rest
      {
        var k :| k in rest;
        var ek := Encode(k);
        var ev := Encode(m[k]);
        es, ks, rest := es + [MapEntry(Some(ek), Some(ev))], ks + [k], rest - {k};
      }
      assert EncodesMapInOrder(v, ks, es);
      w := Value(Some(MapV(es)));
    case Json(m) =>
      var es: seq<JsonEntry> := [];
      ghost var ks: seq<Text> := [];
      var rest := m.Keys;
      while rest != {}
        invariant rest <= m.Keys
        invariant forall k :: k in ks <==> k in m.Keys && k !in rest
        invariant forall i, j :: 0 <= i < j < |ks| ==> ks[i] != ks[j]
        invariant |es| == |ks|
        invariant forall i | 0 <= i < |ks| ::
                    ks[i] in m && es[i].key == ks[i] && es[i].v.Some? && Encodes(m[ks[i]], es[i].v.value)
        decreases rest
      {
        var k :| k in rest;
        var ev := Encode(m[k]);
        es, ks, rest := es + [JsonEntry(k, Some(ev))], ks + [k], rest - {k};
      }
      assert EncodesJsonInOrder(v, ks, es);
      w := Value(Some(JsonV(es)));
    case GeoJson(g) => w := Value(Some(GeoV(g)));
    case Hll(b) => w := Value(Some(HllV(b)));
    case Wildcard => w := Value(Some(WildcardV(true)));
    case Infinity => w := Value(Some(InfinityV(true)));
  }

  // ----- Decoding -----

  /** `From<proto::Value> for PHPValue`: panics on an unset oneof, skips a map entry without a key,
      and panics on a keyed map entry or any JSON entry without a value. */
  function Decode(w: Value): Outcome<PhpValue>
    decreases w
  {
    if w.v.None? then Panic else
    match w.v.value
    case NilV(_) => Ok(Nil)
    case BoolV(b) => Ok(Bool(b))
    case IntV(i) => Ok(Int(i))
    case FloatV(f) => Ok(Float(f))
    case StrV(s) => Ok(Str(s))
    case BlobV(b) => Ok(Blob(b))
    case ListV(l) => var r := DecodeList(l); if r.Ok? then Ok(List(r.value)) else Panic
    case JsonV(j) => var r := DecodeJson(j); if r.Ok? then Ok(Json(r.value)) else Panic
    case MapV(m) => var r := DecodeMap(m); if r.Ok? then Ok(HashMap(r.value)) else Panic
    case GeoV(g) => Ok(GeoJson(g))
    case HllV(b) => Ok(Hll(b))
    case InfinityV(_) => Ok(Infinity)
    case WildcardV(_) => Ok(Wildcard)
  }

  function DecodeList(l: seq<Value>): Outcome<seq<PhpValue>>
    decreases l
  {
    if l == [] then Ok([]) else
    var init := DecodeList(l[..|l| - 1]);
    var last := Decode(l[|l| - 1]);
    if init.Ok? && last.Ok? then Ok(init.value + [last.value]) else Panic
  }

  function DecodeMap(es: seq<MapEntry>): Outcome<map<PhpValue, PhpValue>>
    decreases es
  {
    if es == [] then Ok(map[]) else
    var init := DecodeMap(es[..|es| - 1]);
    var e := es[|es| - 1];
    if init.Panic? || e.k.None? then init
    else
      var p := DecodeEntry(e);
      if p.Ok? then Ok(init.value[p.value.0 := p.value.1]) else Panic
  }

  function DecodeEntry(e: MapEntry): Outcome<(PhpValue, PhpValue)>
    requires e.k.Some?
    decreases e
  {
    if e.v.None? then Panic else
    var k := Decode(e.k.value);
    var v := Decode(e.v.value);
    if k.Ok? && v.Ok? then Ok((k.value, v.value)) else Panic
  }

  function DecodeJson(es: seq<JsonEntry>): Outcome<map<Text, PhpValue>>
    decreases es
  {
    if es == [] then Ok(map[]) else
    var init := DecodeJson(es[..|es| - 1]);
    var e := es[|es| - 1];
    if init.Panic? || e.v.None? then Panic
    else
      var v := Decode(e.v.value);
      if v.Ok? then Ok(init.value[e.key := v.value]) else Panic
  }

  /** The decoder as the source runs it, one push or insert per element. */
  method DecodeStepwise(w: Value) returns (r: Outcome<PhpValue>)
    ensures r == Decode(w)
    decreases w
  {
    if w.v.None? {
      return Panic;
    }
    match w.v.value
    case ListV(l) =>
      var nl: Outcome<seq<PhpValue>> := Ok([]);
      for i := 0 to |l|
        invariant nl == DecodeList(l[..i])
      {
        var e := DecodeStepwise(l[i]);
        assert l[..i + 1][..i] == l[..i];
        nl := if nl.Ok? && e.Ok? then Ok(nl.value + [e.value]) else Panic;
      }
      assert l[..|l|] == l;
      r := if nl.Ok? then Ok(List(nl.value)) else Panic;
    case MapV(es) =>
      var h: Outcome<map<PhpValue, PhpValue>> := Ok(map[]);
      for i := 0 to |es|
        invariant h == DecodeMap(es[..i])
      {
        assert es[..i + 1][..i] == es[..i];
        if h.Ok? && es[i].k.Some? {
          if es[i].v.None? {
            h := Panic;
          } else {
            var k := DecodeStepwise(es[i].k.value);
            var v := DecodeStepwise(es[i].v.value);
            h := if k.Ok? && v.Ok? then Ok(h.value[k.value := v.value]) else Panic;
          }
        }
      }
      assert es[..|es|] == es;
      r := if h.Ok? then Ok(HashMap(h.value)) else Panic;
    case JsonV(es) =>
      var h: Outcome<map<Text, PhpValue>> := Ok(map[]);
      for i := 0 to |es|
        invariant h == DecodeJson(es[..i])
      {
        assert es[..i + 1][..i] == es[..i];
        if h.Ok? && es[i].v.Some? {
          var v := DecodeStepwise(es[i].v.value);
          h := if v.Ok? then Ok(h.value[es[i].key := v.value]) else Panic;
        } else {
          h := Panic;
        }
      }
      assert es[..|es|] == es;
      r := if h.Ok? then Ok(Json(h.value)) else Panic;
    case _ =>
      r := Decode(w);
  }

  // ----- Round trip -----

  /** The value a reader gets back: every `UInt(u)` becomes `Int(u as i64)`, at all depths and in
      keys. Two keys of one map that become equal are merged. */
  ghost function Normalise(v: PhpValue): PhpValue
    decreases v, 1
  {
    match v
    case UInt(u) => Int(AsI64(u))
    case List(l) => List(seq(|l|, i requires 0 <= i < |l| => Normalise(l[i])))
    case HashMap(m) =>
      HashMap(map n | n in NormalKeys(v) :: var k :| k in m && Normalise(k) == n; Normalise(m[k]))
    case Json(j) => Json(map k | k in j :: Normalise(j[k]))
    case _ => v
  }

  ghost function NormalKeys(v: PhpValue): set<PhpValue>
    requires v.HashMap?
    decreases v, 0
  {
    set k | k in v.m :: Normalise(k)
  }

  /** No two keys of any one map become equal. */
  ghost predicate KeysStayDistinct(v: PhpValue)
  {
    match v
    case List(l) => forall i | 0 <= i < |l| :: KeysStayDistinct(l[i])
    case HashMap(m) =>
      && (forall k | k in m :: KeysStayDistinct(k) && KeysStayDistinct(m[k]))
      && (forall k, k' | k in m && k' in m :: Normalise(k) == Normalise(k') ==> k == k')
    case Json(j) => forall k | k in j :: KeysStayDistinct(j[k])
    case _ => true
  }

  lemma {:induction false} DecodeListElementwise(l: seq<Value>, vs: seq<PhpValue>)
    requires |l| == |vs| && forall i :: 0 <= i < |l| ==> Decode(l[i]) == Ok(vs[i])
    ensures DecodeList(l) == Ok(vs)
  {
    if l != [] {
      DecodeListElementwise(l[..|l| - 1], vs[..|l| - 1]);
      assert vs == vs[..|l| - 1] + [vs[|l| - 1]];
    }
  }

  /** Entry `e` carries exactly the key and value of `p`. */
  ghost predicate Carries(e: MapEntry, p: (PhpValue, PhpValue)) {
    && e.k.Some? && e.v.Some?
    && Decode(e.k.value) == Ok(p.0) && Decode(e.v.value) == Ok(p.1)
  }

  lemma {:induction false} DecodeMapEntrywise(es: seq<MapEntry>, ps: seq<(PhpValue, PhpValue)>)
    requires |es| == |ps| && forall i :: 0 <= i < |es| ==> Carries(es[i], ps[i])
    ensures DecodeMap(es) == Ok(InsertAll(ps))
  {
    if es != [] {
      DecodeMapEntrywise(es[..|es| - 1], ps[..|es| - 1]);
      assert Carries(es[|es| - 1], ps[|es| - 1]);
    }
  }

  lemma {:induction false} DecodeJsonEntrywise(es: seq<JsonEntry>, ps: seq<(Text, PhpValue)>)
    requires |es| == |ps|
    requires forall i :: 0 <= i < |es| ==>
               es[i].key == ps[i].0 && es[i].v.Some? && Decode(es[i].v.value) == Ok(ps[i].1)
    ensures DecodeJson(es) == Ok(InsertAll(ps))
  {
    if es != [] {
      DecodeJsonEntrywise(es[..|es| - 1], ps[..|es| - 1]);
    }
  }

  /** `ps` lists the normalised entries of `m`, visiting its keys in the order `ks`. */
  ghost predicate NormalEntries(m: map<PhpValue, PhpValue>, ks: seq<PhpValue>, ps: seq<(PhpValue, PhpValue)>) {
    && Iterates(ks, m.Keys)
    && |ps| == |ks|
    && forall i | 0 <= i < |ks| :: ks[i] in m && ps[i] == (Normalise(ks[i]), Normalise(m[ks[i]]))
  }

  ghost predicate InjectiveKeys(m: map<PhpValue, PhpValue>) {
    forall k, k' | k in m && k' in m :: Normalise(k) == Normalise(k') ==> k == k'
  }

  lemma NormaliseAt(m: map<PhpValue, PhpValue>, k: PhpValue)
    requires InjectiveKeys(m) && k in m
    ensures Normalise(k) in Normalise(HashMap(m)).m
    ensures Normalise(HashMap(m)).m[Normalise(k)] == Normalise(m[k])
  {
    assert Normalise(k) in NormalKeys(HashMap(m));
  }

  lemma NormaliseFrom(m: map<PhpValue, PhpValue>, n: PhpValue) returns (k: PhpValue)
    requires n in Normalise(HashMap(m)).m
    ensures k in m && Normalise(k) == n
  {
    assert n in NormalKeys(HashMap(m));
    k :| k in m && Normalise(k) == n;
  }

  lemma NormalEntriesList(m: map<PhpValue, PhpValue>, ks: seq<PhpValue>, ps: seq<(PhpValue, PhpValue)>)
    requires InjectiveKeys(m) && NormalEntries(m, ks, ps)
    ensures Lists(ps, Normalise(HashMap(m)).m)
  {
    var n := Normalise(HashMap(m)).m;
    forall i | 0 <= i < |ps|
      ensures ps[i].0 in n && n[ps[i].0] == ps[i].1
    {
      NormaliseAt(m, ks[i]);
    }
    forall x | x in n
      ensures exists i :: 0 <= i < |ps| && ps[i].0 == x
    {
      var k := NormaliseFrom(m, x);
      assert k in ks;
      var i :| 0 <= i < |ks| && ks[i] == k;
      assert ps[i].0 == x;
    }
  }

  /** Decoding any encoding of `v` gives the normalised `v`, whatever order its hash maps were
      iterated in. */
  lemma {:induction false} RoundTrip(v: PhpValue, w: Value)
    requires Encodes(v, w) && KeysStayDistinct(v)
    ensures Decode(w) == Ok(Normalise(v))
    decreases v, 1
  {
    match v
    case List(l) =>
      forall i | 0 <= i < |l|
        ensures Decode(w.v.value.l[i]) == Ok(Normalise(v).l[i])
      {
        RoundTrip(l[i], w.v.value.l[i]);
      }
      DecodeListElementwise(w.v.value.l, Normalise(v).l);
    case HashMap(m) =>
      RoundTripMap(v, w.v.value.m);
    case Json(j) =>
      RoundTripJson(v, w.v.value.j);
    case _ =>
  }

  lemma {:induction false} RoundTripMap(v: PhpValue, es: seq<MapEntry>)
    requires v.HashMap? && Encodes(v, Value(Some(MapV(es)))) && KeysStayDistinct(v)
    ensures DecodeMap(es) == Ok(Normalise(v).m)
    decreases v, 0, 1
  {
    var ks, ps := DecodedEntries(v, es);
    NormalEntriesList(v.m, ks, ps);
    InsertAllLists(ps, Normalise(v).m);
  }

  /** The decoder inserts the normalised entries in the order the encoder iterated them. */
  lemma {:induction false} DecodedEntries(v: PhpValue, es: seq<MapEntry>)
    returns (ks: seq<PhpValue>, ps: seq<(PhpValue, PhpValue)>)
    requires v.HashMap? && Encodes(v, Value(Some(MapV(es))))
    requires forall k | k in v.m :: KeysStayDistinct(k) && KeysStayDistinct(v.m[k])
    ensures NormalEntries(v.m, ks, ps) && DecodeMap(es) == Ok(InsertAll(ps))
    decreases v, 0, 0
  {
    var m := v.m;
    ks :| EncodesMapInOrder(v, ks, es);
    ps := seq(|ks|, i requires 0 <= i < |ks| => assert ks[i] in m; (Normalise(ks[i]), Normalise(m[ks[i]])));
    forall i | 0 <= i < |ks|
      ensures Carries(es[i], ps[i])
    {
      RoundTrip(ks[i], es[i].k.value);
      RoundTrip(m[ks[i]], es[i].v.value);
    }
    DecodeMapEntrywise(es, ps);
  }

  lemma {:induction false} RoundTripJson(v: PhpValue, es: seq<JsonEntry>)
    requires v.Json? && Encodes(v, Value(Some(JsonV(es)))) && KeysStayDistinct(v)
    ensures DecodeJson(es) == Ok(Normalise(v).j)
    decreases v, 0, 1
  {
    var j := v.j;
    var ks :| EncodesJsonInOrder(v, ks, es);
    var ps := seq(|ks|, i requires 0 <= i < |ks| => assert ks[i] in j; (ks[i], Normalise(j[ks[i]])));
    forall i | 0 <= i < |ks|
      ensures Decode(es[i].v.value) == Ok(ps[i].1)
    {
      RoundTrip(j[ks[i]], es[i].v.value);
    }
    DecodeJsonEntrywise(es, ps);
    forall k | k in j
      ensures exists i :: 0 <= i < |ps| && ps[i].0 == k
    {
      assert k in ks;
      var i :| 0 <= i < |ks| && ks[i] == k;
      assert ps[i].0 == k;
    }
    InsertAllLists(ps, Normalise(v).j);
  }

  lemma DistinctIffInjective(m: map<PhpValue, PhpValue>, ks: seq<PhpValue>, ps: seq<(PhpValue, PhpValue)>)
    requires NormalEntries(m, ks, ps)
    ensures DistinctKeys(ps) <==> InjectiveKeys(m)
  {
    if DistinctKeys(ps) {
      forall k, k' | k in m && k' in m && Normalise(k) == Normalise(k')
        ensures k == k'
      {
        assert k in ks && k' in ks;
        var i :| 0 <= i < |ks| && ks[i] == k;
        var j :| 0 <= j < |ks| && ks[j] == k';
        assert ps[i].0 == ps[j].0;
      }
    } else {
      var i, j :| 0 <= i < j < |ps| && ps[i].0 == ps[j].0;
      assert ks[i] in m && ks[j] in m && ks[i] != ks[j];
    }
  }

  /** The decoded map has as many entries as the encoded one exactly when no two of its keys become
      equal; `{UInt(5): a, Int(5): b}` loses one. */
  lemma {:induction false} EntriesSurvive(v: PhpValue, es: seq<MapEntry>)
    requires v.HashMap? && Encodes(v, Value(Some(MapV(es))))
    requires forall k | k in v.m :: KeysStayDistinct(k) && KeysStayDistinct(v.m[k])
    ensures DecodeMap(es).Ok?
    ensures |DecodeMap(es).value| == |v.m| <==> InjectiveKeys(v.m)
  {
    var ks, ps := DecodedEntries(v, es);
    InsertAllCount(ps);
    IteratesCount(ks, v.m.Keys);
    DistinctIffInjective(v.m, ks, ps);
  }

  // ----- Which messages decode -----

  /** The oneof is set at every depth, a keyed map entry has its value, and every JSON entry does;
      a map entry without a key is padding. */
  ghost predicate Decodable(w: Value)
  {
    && w.v.Some?
    && match w.v.value
       case ListV(l) => forall i | 0 <= i < |l| :: Decodable(l[i])
       case MapV(m) =>
         forall i | 0 <= i < |m| ::
           m[i].k.Some? ==> m[i].v.Some? && Decodable(m[i].k.value) && Decodable(m[i].v.value)
       case JsonV(j) => forall i | 0 <= i < |j| :: j[i].v.Some? && Decodable(j[i].v.value)
       case _ => true
  }

  lemma {:induction false} DecodeListTotal(l: seq<Value>)
    ensures DecodeList(l).Ok? <==> forall i | 0 <= i < |l| :: Decode(l[i]).Ok?
  {
    if l != [] {
      var init := l[..|l| - 1];
      DecodeListTotal(init);
      assert forall i | 0 <= i < |init| :: init[i] == l[i];
    }
  }

  lemma {:induction false} DecodeMapTotal(es: seq<MapEntry>)
    ensures DecodeMap(es).Ok? <==> forall i | 0 <= i < |es| :: es[i].k.Some? ==> DecodeEntry(es[i]).Ok?
  {
    if es != [] {
      var init := es[..|es| - 1];
      DecodeMapTotal(init);
      assert forall i | 0 <= i < |init| :: init[i] == es[i];
    }
  }

  lemma {:induction false} DecodeJsonTotal(es: seq<JsonEntry>)
    ensures DecodeJson(es).Ok? <==> forall i | 0 <= i < |es| :: es[i].v.Some? && Decode(es[i].v.value).Ok?
  {
    if es != [] {
      var init := es[..|es| - 1];
      DecodeJsonTotal(init);
      assert forall i | 0 <= i < |init| :: init[i] == es[i];
    }
  }

  /** The decoder's `unwrap` calls all succeed exactly on the decodable messages. */
  lemma {:induction false} DecodeTotal(w: Value)
    ensures Decode(w).Ok? <==> Decodable(w)
  {
    if w.v.Some? {
      match w.v.value
      case ListV(l) =>
        forall i | 0 <= i < |l| ensures Decode(l[i]).Ok? <==> Decodable(l[i]) { DecodeTotal(l[i]); }
        DecodeListTotal(l);
      case MapV(m) =>
        forall i | 0 <= i < |m| && m[i].k.Some?
          ensures DecodeEntry(m[i]).Ok? <==>
                  m[i].v.Some? && Decodable(m[i].k.value) && Decodable(m[i].v.value)
        {
          if m[i].v.Some? {
            DecodeTotal(m[i].k.value);
            DecodeTotal(m[i].v.value);
          }
        }
        DecodeMapTotal(m);
      case JsonV(j) =>
        forall i | 0 <= i < |j| && j[i].v.Some?
          ensures Decode(j[i].v.value).Ok? <==> Decodable(j[i].v.value)
        {
          DecodeTotal(j[i].v.value);
        }
        DecodeJsonTotal(j);
      case _ =>
    }
  }

  /** Everything the Rust encoder produces decodes, even when keys merge. */
  lemma {:induction false} EncodingsDecode(v: PhpValue, w: Value)
    requires Encodes(v, w)
    ensures Decodable(w) && Decode(w).Ok?
  {
    DecodeTotal(w);
    match v
    case List(l) =>
      forall i | 0 <= i < |l| ensures Decodable(w.v.value.l[i]) { EncodingsDecode(l[i], w.v.value.l[i]); }
    case HashMap(m) =>
      var es := w.v.value.m;
      var ks :| EncodesMapInOrder(v, ks, es);
      forall i | 0 <= i < |es| ensures Decodable(es[i].k.value) && Decodable(es[i].v.value) {
        EncodingsDecode(ks[i], es[i].k.value);
        EncodingsDecode(m[ks[i]], es[i].v.value);
      }
    case Json(j) =>
      var es := w.v.value.j;
      var ks :| EncodesJsonInOrder(v, ks, es);
      forall i | 0 <= i < |es| ensures Decodable(es[i].v.value) {
        EncodingsDecode(j[ks[i]], es[i].v.value);
      }
    case _ =>
  }
}
