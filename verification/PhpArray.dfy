/** Conversion of PHP values to `PHPValue` (`from_zval`), and what a PHP array means to a reader
    once it has been encoded and decoded. */
module PhpArray {
  import opened Basics
  import opened Wire
  import opened PhpCodec

  datatype ArrayKey = LongKey(index: int64) | StringKey(name: Text)

  datatype Slot = Slot(key: ArrayKey, val: Zval)

  /** A PHP value: an array is an ordered list of keys with values. A PHP string that is not valid
      UTF-8 is `StringZ(None)`; `OtherObject` is an object of any class but the five value classes,
      `OtherType` any type the conversion declares unreachable. */
  datatype Zval =
    | NullZ
    | BoolZ(b: bool)
    | LongZ(i: int64)
    | DoubleZ(f: Double)
    | StringZ(s: Option<Text>)
    | ArrayZ(kvs: seq<Slot>)
    | BlobObject(blob: seq<byte>)
    | HllObject(hll: seq<byte>)
    | GeoJsonObject(geo: Text)
    | InfinityObject
    | WildcardObject
    | OtherObject
    | OtherType

  predicate HasSequentialKeys(kvs: seq<Slot>) {
    forall i :: 0 <= i < |kvs| ==> kvs[i].key.LongKey? && kvs[i].key.index == i
  }

  predicate HasNumericalKeys(kvs: seq<Slot>) {
    forall i :: 0 <= i < |kvs| ==> kvs[i].key.LongKey?
  }

  function HashKey(k: ArrayKey): PhpValue {
    match k
    case LongKey(i) => UInt(AsU64(i))
    case StringKey(s) => Str(s)
  }

  /** `Ok(None)` after an exception has been thrown, `Panic` on a failing `unwrap` or
      `unreachable!`. */
  function FromZval(z: Zval): Outcome<Option<PhpValue>>
    decreases z
  {
    match z
    case NullZ => Ok(Some(Nil))
    case BoolZ(b) => Ok(Some(Bool(b)))
    case LongZ(i) => Ok(Some(Int(i)))
    case DoubleZ(f) => Ok(Some(PhpValue.Float(f)))
    case StringZ(s) => Ok(if s.Some? then Some(Str(s.value)) else None)
    case ArrayZ(kvs) =>
      if HasSequentialKeys(kvs) then
        var l := Elements(kvs);
        if l.Ok? then Ok(Some(List(l.value))) else Panic
      else
        var h := Entries(kvs, HasNumericalKeys(kvs));
        if h.Ok? then Ok(Some(HashMap(h.value))) else Panic
    case BlobObject(b) => Ok(Some(Blob(b)))
    case HllObject(b) => Ok(Some(Hll(b)))
    case GeoJsonObject(g) => Ok(Some(GeoJson(g)))
    case InfinityObject => Ok(Some(Infinity))
    case WildcardObject => Ok(Some(Wildcard))
    case OtherObject => Ok(None)
    case OtherType => Panic
  }

  /** `from_zval(v).unwrap()` */
  function Unwrap(r: Outcome<Option<PhpValue>>): Outcome<PhpValue> {
    if r.Ok? && r.value.Some? then Ok(r.value.value) else Panic
  }

  function FromSlot(slot: Slot): Outcome<PhpValue>
    decreases slot
  {
    Unwrap(FromZval(slot.val))
  }

  function Elements(kvs: seq<Slot>): Outcome<seq<PhpValue>>
    decreases kvs
  {
    if kvs == [] then Ok([]) else
    Append(Elements(kvs[..|kvs| - 1]), FromSlot(kvs[|kvs| - 1]))
  }

  function Append(l: Outcome<seq<PhpValue>>, v: Outcome<PhpValue>): Outcome<seq<PhpValue>> {
    if l.Ok? && v.Ok? then Ok(l.value + [v.value]) else Panic
  }

  /** Keeps the entries with integer keys (`long`) or those with string keys (`!long`); the others
      are dropped without being converted. */
  function Entries(kvs: seq<Slot>, long: bool): Outcome<map<PhpValue, PhpValue>>
    decreases kvs
  {
    if kvs == [] then Ok(map[]) else
    var init := Entries(kvs[..|kvs| - 1], long);
    var k := kvs[|kvs| - 1].key;
    if k.LongKey? == long then Insert(init, HashKey(k), FromSlot(kvs[|kvs| - 1])) else init
  }

  function Insert(h: Outcome<map<PhpValue, PhpValue>>, k: PhpValue, v: Outcome<PhpValue>)
    : Outcome<map<PhpValue, PhpValue>>
  {
    if h.Ok? && v.Ok? then Ok(h.value[k := v.value]) else Panic
  }

  /** The conversion as the source runs it, one push or insert per array element. */
  method FromZvalStepwise(z: Zval) returns (r: Outcome<Option<PhpValue>>)
    ensures r == FromZval(z)
    decreases z, 1
  {
    if !z.ArrayZ? {
      return FromZval(z);
    }
    if HasSequentialKeys(z.kvs) {
      var l := ElementsStepwise(z.kvs);
      r := if l.Ok? then Ok(Some(List(l.value))) else Panic;
    } else {
      var h := EntriesStepwise(z.kvs, HasNumericalKeys(z.kvs));
      r := if h.Ok? then Ok(Some(HashMap(h.value))) else Panic;
    }
  }

  method ElementsStepwise(kvs: seq<Slot>) returns (l: Outcome<seq<PhpValue>>)
    ensures l == Elements(kvs)
    decreases kvs, 0
  {
    l := Ok([]);
    for i := 0 to |kvs|
      invariant l == Elements(kvs[..i])
    {
      assert kvs[..i + 1][..i] == kvs[..i];
      assert kvs[i].val < kvs[i];
      var e := FromZvalStepwise(kvs[i].val);
      l := Append(l, Unwrap(e));
    }
    assert kvs[..|kvs|] == kvs;
  }

  method EntriesStepwise(kvs: seq<Slot>, long: bool) returns (h: Outcome<map<PhpValue, PhpValue>>)
    ensures h == Entries(kvs, long)
    decreases kvs, 0
  {
    h := Ok(map[]);
    for i := 0 to |kvs|
      invariant h == Entries(kvs[..i], long)
    {
      assert kvs[..i + 1][..i] == kvs[..i];
      if kvs[i].key.LongKey? == long {
        assert kvs[i].val < kvs[i];
        var e := FromZvalStepwise(kvs[i].val);
        h := Insert(h, HashKey(kvs[i].key), Unwrap(e));
      }
    }
    assert kvs[..|kvs|] == kvs;
  }

  // ----- What an array means -----

  /** A PHP array never holds a key twice. */
  ghost predicate IsPhpValue(z: Zval)
  {
    z.ArrayZ? ==>
      && (forall i, j :: 0 <= i < j < |z.kvs| ==> z.kvs[i].key != z.kvs[j].key)
      && (forall i | 0 <= i < |z.kvs| :: IsPhpValue(z.kvs[i].val))
  }

  function ReadKey(k: ArrayKey): PhpValue {
    match k
    case LongKey(i) => Int(i)
    case StringKey(s) => Str(s)
  }

  ghost predicate Kept(kvs: seq<Slot>, i: int) {
    0 <= i < |kvs| && (HasNumericalKeys(kvs) || kvs[i].key.StringKey?)
  }

  /** `n` is what a reader should see of `z`: a sequential array is a list, an array with only
      integer keys is a map under those same signed integers, and any other array is a map of
      exactly its string-keyed entries. */
  ghost predicate Means(z: Zval, n: PhpValue)
  {
    match z
    case NullZ => n == Nil
    case BoolZ(b) => n == Bool(b)
    case LongZ(i) => n == Int(i)
    case DoubleZ(f) => n == PhpValue.Float(f)
    case StringZ(s) => s.Some? && n == Str(s.value)
    case ArrayZ(kvs) =>
      if HasSequentialKeys(kvs) then
        && n.List? && |n.l| == |kvs|
        && forall i | 0 <= i < |kvs| :: Means(kvs[i].val, n.l[i])
      else
        && n.HashMap?
        && (forall i | 0 <= i < |kvs| ::
              Kept(kvs, i) ==> ReadKey(kvs[i].key) in n.m && Means(kvs[i].val, n.m[ReadKey(kvs[i].key)]))
        && (forall x :: x in n.m ==> exists i :: Kept(kvs, i) && ReadKey(kvs[i].key) == x)
    case BlobObject(b) => n == Blob(b)
    case HllObject(b) => n == Hll(b)
    case GeoJsonObject(g) => n == GeoJson(g)
    case InfinityObject => n == Infinity
    case WildcardObject => n == Wildcard
    case OtherObject => false
    case OtherType => false
  }

  lemma {:induction false} ElementsAre(kvs: seq<Slot>)
    requires Elements(kvs).Ok?
    ensures |Elements(kvs).value| == |kvs|
    ensures forall i | 0 <= i < |kvs| :: FromZval(kvs[i].val) == Ok(Some(Elements(kvs).value[i]))
  {
    if kvs != [] {
      ElementsAre(kvs[..|kvs| - 1]);
    }
  }

  lemma {:induction false} EntriesHold(kvs: seq<Slot>, long: bool)
    requires Entries(kvs, long).Ok?
    requires forall i, j :: 0 <= i < j < |kvs| ==> kvs[i].key != kvs[j].key
    ensures forall i | 0 <= i < |kvs| && kvs[i].key.LongKey? == long ::
              && HashKey(kvs[i].key) in Entries(kvs, long).value
              && FromZval(kvs[i].val) == Ok(Some(Entries(kvs, long).value[HashKey(kvs[i].key)]))
  {
    if kvs != [] {
      var init, last := kvs[..|kvs| - 1], kvs[|kvs| - 1];
      EntriesHold(init, long);
      forall i | 0 <= i < |init| && kvs[i].key.LongKey? == long
        ensures init[i] == kvs[i] && HashKey(kvs[i].key) != HashKey(last.key)
      {
        if HashKey(kvs[i].key) == HashKey(last.key) {
          HashKeyInjective(kvs[i].key, last.key);
        }
      }
    }
  }

  lemma {:induction false} EntriesKeys(kvs: seq<Slot>, long: bool)
    requires Entries(kvs, long).Ok?
    ensures forall x :: x in Entries(kvs, long).value ==>
              exists i :: 0 <= i < |kvs| && kvs[i].key.LongKey? == long && HashKey(kvs[i].key) == x
  {
    if kvs != [] {
      var init := kvs[..|kvs| - 1];
      EntriesKeys(init, long);
      forall x | x in Entries(kvs, long).value
        ensures exists i :: 0 <= i < |kvs| && kvs[i].key.LongKey? == long && HashKey(kvs[i].key) == x
      {
        if x in Entries(init, long).value {
          var i :| 0 <= i < |init| && init[i].key.LongKey? == long && HashKey(init[i].key) == x;
          assert kvs[i] == init[i];
        }
      }
    }
  }

  lemma HashKeyInjective(k: ArrayKey, k': ArrayKey)
    requires HashKey(k) == HashKey(k')
    ensures k == k'
  {
    if k.LongKey? {
      assert AsI64(AsU64(k.index)) == AsI64(AsU64(k'.index));
    }
  }

  lemma {:induction false} FromZvalMeans(z: Zval)
    requires IsPhpValue(z) && FromZval(z).Ok? && FromZval(z).value.Some?
    ensures KeysStayDistinct(FromZval(z).value.value)
    ensures Means(z, Normalise(FromZval(z).value.value))
    decreases z, 1
  {
    if z.ArrayZ? {
      if HasSequentialKeys(z.kvs) {
        var kvs, l := z.kvs, Elements(z.kvs).value;
        ElementsAre(kvs);
        forall i | 0 <= i < |kvs|
          ensures KeysStayDistinct(l[i]) && Means(kvs[i].val, Normalise(l[i]))
        {
          FromZvalMeans(kvs[i].val);
        }
      } else {
        FromMapMeans(z);
      }
    }
  }

  /** `h` holds exactly the kept slots of `kvs`, under their hash keys. */
  ghost predicate HoldsKept(kvs: seq<Slot>, h: map<PhpValue, PhpValue>) {
    && (forall i :: Kept(kvs, i) ==>
          HashKey(kvs[i].key) in h && FromZval(kvs[i].val) == Ok(Some(h[HashKey(kvs[i].key)])))
    && (forall x :: x in h ==> exists i :: Kept(kvs, i) && HashKey(kvs[i].key) == x)
  }

  lemma HoldsKeptInjective(kvs: seq<Slot>, h: map<PhpValue, PhpValue>)
    requires HoldsKept(kvs, h)
    ensures forall x | x in h :: KeysStayDistinct(x)
    ensures InjectiveKeys(h)
  {
    forall x | x in h
      ensures KeysStayDistinct(x)
      ensures exists i :: Kept(kvs, i) && HashKey(kvs[i].key) == x && Normalise(x) == ReadKey(kvs[i].key)
    {
      var i :| Kept(kvs, i) && HashKey(kvs[i].key) == x;
    }
  }

  lemma {:induction false} FromMapMeans(z: Zval)
    requires z.ArrayZ? && !HasSequentialKeys(z.kvs) && IsPhpValue(z)
    requires Entries(z.kvs, HasNumericalKeys(z.kvs)).Ok?
    ensures KeysStayDistinct(HashMap(Entries(z.kvs, HasNumericalKeys(z.kvs)).value))
    ensures Means(z, Normalise(HashMap(Entries(z.kvs, HasNumericalKeys(z.kvs)).value)))
    decreases z, 0
  {
    var kvs, long := z.kvs, HasNumericalKeys(z.kvs);
    var h := Entries(kvs, long).value;
    EntriesHold(kvs, long);
    EntriesKeys(kvs, long);
    assert HoldsKept(kvs, h);
    HoldsKeptInjective(kvs, h);
    forall i | Kept(kvs, i)
      ensures KeysStayDistinct(h[HashKey(kvs[i].key)])
      ensures Means(kvs[i].val, Normalise(h[HashKey(kvs[i].key)]))
    {
      FromZvalMeans(kvs[i].val);
    }
    assert KeysStayDistinct(HashMap(h));
    MapMeans(z, h);
  }

  lemma MapMeans(z: Zval, h: map<PhpValue, PhpValue>)
    requires z.ArrayZ? && !HasSequentialKeys(z.kvs) && HoldsKept(z.kvs, h)
    requires forall i :: Kept(z.kvs, i) ==> Means(z.kvs[i].val, Normalise(h[HashKey(z.kvs[i].key)]))
    ensures Means(z, Normalise(HashMap(h)))
  {
    MapReads(z.kvs, h);
    SlotsMean(z, Normalise(HashMap(h)));
  }

  /** `n` is the map a reader sees of the kept slots. */
  ghost predicate ReadsAs(kvs: seq<Slot>, n: PhpValue) {
    && n.HashMap?
    && (forall i | Kept(kvs, i) :: SlotMeans(kvs[i], n.m))
    && forall y | y in n.m :: exists i :: Kept(kvs, i) && ReadKey(kvs[i].key) == y
  }

  lemma MapReads(kvs: seq<Slot>, h: map<PhpValue, PhpValue>)
    requires HoldsKept(kvs, h)
    requires forall i :: Kept(kvs, i) ==> Means(kvs[i].val, Normalise(h[HashKey(kvs[i].key)]))
    ensures ReadsAs(kvs, Normalise(HashMap(h)))
  {
    SlotsRead(kvs, h);
    KeysRead(kvs, h);
  }

  lemma SlotsRead(kvs: seq<Slot>, h: map<PhpValue, PhpValue>)
    requires HoldsKept(kvs, h)
    requires forall i :: Kept(kvs, i) ==> Means(kvs[i].val, Normalise(h[HashKey(kvs[i].key)]))
    ensures forall i | Kept(kvs, i) :: SlotMeans(kvs[i], Normalise(HashMap(h)).m)
  {
    HoldsKeptInjective(kvs, h);
    forall i | Kept(kvs, i)
      ensures SlotMeans(kvs[i], Normalise(HashMap(h)).m)
    {
      SlotRead(kvs[i], h);
    }
  }

  ghost predicate SlotMeans(slot: Slot, n: map<PhpValue, PhpValue>) {
    ReadKey(slot.key) in n && Means(slot.val, n[ReadKey(slot.key)])
  }

  lemma SlotRead(slot: Slot, h: map<PhpValue, PhpValue>)
    requires InjectiveKeys(h) && HashKey(slot.key) in h
    requires Means(slot.val, Normalise(h[HashKey(slot.key)]))
    ensures SlotMeans(slot, Normalise(HashMap(h)).m)
  {
    NormaliseAt(h, HashKey(slot.key));
    assert Normalise(HashKey(slot.key)) == ReadKey(slot.key);
  }

  lemma KeysRead(kvs: seq<Slot>, h: map<PhpValue, PhpValue>)
    requires HoldsKept(kvs, h)
    ensures forall y | y in Normalise(HashMap(h)).m :: exists i :: Kept(kvs, i) && ReadKey(kvs[i].key) == y
  {
    forall y | y in Normalise(HashMap(h)).m
      ensures exists i :: Kept(kvs, i) && ReadKey(kvs[i].key) == y
    {
      var x := NormaliseFrom(h, y);
      var i :| Kept(kvs, i) && HashKey(kvs[i].key) == x;
      assert ReadKey(kvs[i].key) == y;
    }
  }

  lemma SlotsMean(z: Zval, n: PhpValue)
    requires z.ArrayZ? && !HasSequentialKeys(z.kvs) && ReadsAs(z.kvs, n)
    ensures Means(z, n)
  {
  }

  /** The conversion yields a value whenever the PHP value means something; so it fails exactly on
      values without a meaning. */
  lemma {:induction false} MeaningfulConverts(z: Zval, n: PhpValue)
    requires Means(z, n)
    ensures Unwrap(FromZval(z)).Ok?
    decreases z
  {
    if z.ArrayZ? {
      var kvs := z.kvs;
      if HasSequentialKeys(kvs) {
        forall i | 0 <= i < |kvs| ensures FromSlot(kvs[i]).Ok? {
          MeaningfulConverts(kvs[i].val, n.l[i]);
        }
        ElementsTotal(kvs);
      } else {
        forall i | Kept(kvs, i) ensures FromSlot(kvs[i]).Ok? {
          MeaningfulConverts(kvs[i].val, n.m[ReadKey(kvs[i].key)]);
        }
        EntriesTotal(kvs, HasNumericalKeys(kvs));
      }
    }
  }

  lemma {:induction false} ElementsTotal(kvs: seq<Slot>)
    requires forall i | 0 <= i < |kvs| :: FromSlot(kvs[i]).Ok?
    ensures Elements(kvs).Ok?
  {
    if kvs != [] {
      ElementsTotal(kvs[..|kvs| - 1]);
    }
  }

  lemma {:induction false} EntriesTotal(kvs: seq<Slot>, long: bool)
    requires forall i | 0 <= i < |kvs| && kvs[i].key.LongKey? == long :: FromSlot(kvs[i]).Ok?
    ensures Entries(kvs, long).Ok?
  {
    if kvs != [] {
      EntriesTotal(kvs[..|kvs| - 1], long);
    }
  }

  /** Every value that the conversion looks at can be converted. */
  ghost predicate Convertible(z: Zval)
  {
    match z
    case StringZ(s) => s.Some?
    case ArrayZ(kvs) => forall i | 0 <= i < |kvs| :: Kept(kvs, i) ==> Convertible(kvs[i].val)
    case OtherObject => false
    case OtherType => false
    case _ => true
  }

  /** How a conversion fails: an exception is thrown, and nothing returned, exactly for a string that is no
      text and for an object of another class; and it panics exactly on a value of a type it cannot handle
      and on an array that keeps a value which cannot be converted. */
  lemma {:induction false} FromZvalFails(z: Zval)
    ensures FromZval(z) == Ok(None) <==> z == StringZ(None) || z.OtherObject?
    ensures FromZval(z).Panic? <==>
              z.OtherType? || (z.ArrayZ? && exists i :: Kept(z.kvs, i) && !Convertible(z.kvs[i].val))
    ensures Unwrap(FromZval(z)).Ok? <==> Convertible(z)
    decreases z
  {
    if z.ArrayZ? {
      var kvs := z.kvs;
      forall i | 0 <= i < |kvs| ensures FromSlot(kvs[i]).Ok? <==> Convertible(kvs[i].val) {
        FromZvalFails(kvs[i].val);
      }
      if HasSequentialKeys(kvs) {
        ElementsOk(kvs);
        assert forall i | 0 <= i < |kvs| :: Kept(kvs, i);
      } else {
        EntriesOk(kvs, HasNumericalKeys(kvs));
        assert forall i | 0 <= i < |kvs| :: Kept(kvs, i) <==> kvs[i].key.LongKey? == HasNumericalKeys(kvs);
      }
    }
  }

  lemma {:induction false} ElementsOk(kvs: seq<Slot>)
    ensures Elements(kvs).Ok? <==> forall i | 0 <= i < |kvs| :: FromSlot(kvs[i]).Ok?
  {
    if kvs != [] {
      var init := kvs[..|kvs| - 1];
      ElementsOk(init);
      assert forall i | 0 <= i < |init| :: init[i] == kvs[i];
    }
  }

  lemma {:induction false} EntriesOk(kvs: seq<Slot>, long: bool)
    ensures Entries(kvs, long).Ok? <==>
            forall i | 0 <= i < |kvs| && kvs[i].key.LongKey? == long :: FromSlot(kvs[i]).Ok?
  {
    if kvs != [] {
      var init := kvs[..|kvs| - 1];
      var last := kvs[|kvs| - 1];
      EntriesOk(init, long);
      assert forall i | 0 <= i < |init| :: init[i] == kvs[i];
      if last.key.LongKey? == long && FromSlot(last).Panic? {
        assert !Entries(kvs, long).Ok?;
      }
    }
  }

  /** What can be converted is what has a meaning. */
  lemma ConvertibleMeans(z: Zval)
    requires IsPhpValue(z)
    ensures Convertible(z) <==> exists n :: Means(z, n)
  {
    FromZvalFails(z);
    if Convertible(z) {
      FromZvalMeans(z);
      var n := Normalise(FromZval(z).value.value);
      assert Means(z, n);
    } else if exists n :: Means(z, n) {
      var n :| Means(z, n);
      MeaningfulConverts(z, n);
    }
  }

  /** A PHP array written through the Rust encoder reads back as what it means: the map keys never
      merge, and integer keys keep their sign although they travel as unsigned. */
  lemma ArrayRoundTrip(z: Zval, v: PhpValue, w: Value)
    requires IsPhpValue(z) && FromZval(z) == Ok(Some(v)) && Encodes(v, w)
    ensures Decode(w).Ok? && Means(z, Decode(w).value)
  {
    FromZvalMeans(z);
    RoundTrip(v, w);
  }
}
