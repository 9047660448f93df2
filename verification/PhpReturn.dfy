/** Values handed back to PHP: `set_zval` of `PHPValue` (src/lib.rs), and when the array a script gets is
    the one it wrote. */
module PhpReturn {
  import opened Basics
  import opened Decimals
  import opened PhpCodec
  import opened PhpArray

  /** The texts of map keys other than integers and strings, left open. */
  type Rendering = PhpValue -> Text

  function KeyText(r: Rendering, k: PhpValue): Text {
    match k
    case Int(i) => SignedText(i)
    case UInt(u) => SignedText(u)
    case Str(s) => s
    case _ => r(k)
  }

  predicate DistinctSlots(kvs: seq<Slot>) {
    forall i, j :: 0 <= i < j < |kvs| ==> kvs[i].key != kvs[j].key
  }

  ghost predicate HasKey(kvs: seq<Slot>, key: ArrayKey) {
    exists j :: 0 <= j < |kvs| && kvs[j].key == key
  }

  /** `z` is what PHP may receive for `v`: lists by index, and maps with their entries stored under the
      text of the key, in some order. Of entries whose keys have the same text one remains. */
  ghost predicate Shows(r: Rendering, v: PhpValue, z: Zval)
    decreases v, 1
  {
    match v
    case Nil => z == NullZ
    case Bool(b) => z == BoolZ(b)
    case Int(i) => z == LongZ(i)
    case UInt(u) => z == LongZ(AsI64(u))
    case Float(f) => z == DoubleZ(f)
    case Str(s) => z == StringZ(Some(s))
    case List(l) =>
      && z.ArrayZ? && |z.kvs| == |l|
      && forall i | 0 <= i < |l| ::
           z.kvs[i].key.LongKey? && z.kvs[i].key.index == i && Shows(r, l[i], z.kvs[i].val)
    case HashMap(m) =>
      && z.ArrayZ? && DistinctSlots(z.kvs)
      && (forall j | 0 <= j < |z.kvs| :: EntryShows(r, v, z.kvs[j]))
      && (forall k | k in m :: HasKey(z.kvs, StringKey(KeyText(r, k))))
    case Json(m) =>
      && z.ArrayZ? && DistinctSlots(z.kvs)
      && (forall j | 0 <= j < |z.kvs| ::
            z.kvs[j].key.StringKey? && z.kvs[j].key.name in m && Shows(r, m[z.kvs[j].key.name], z.kvs[j].val))
      && (forall k | k in m :: HasKey(z.kvs, StringKey(k)))
    case GeoJson(g) => z == GeoJsonObject(g)
    case Blob(b) => z == BlobObject(b)
    case Hll(b) => z == HllObject(b)
    case Infinity => z == InfinityObject
    case Wildcard => z == WildcardObject
  }

  ghost predicate EntryShows(r: Rendering, v: PhpValue, slot: Slot)
    requires v.HashMap?
    decreases v, 0
  {
    slot.key.StringKey? && exists k :: k in v.m && KeyText(r, k) == slot.key.name && Shows(r, v.m[k], slot.val)
  }

  // ----- The conversion -----

  /** No list is longer than a Rust vector can be. */
  ghost predicate Fits(v: PhpValue)
  {
    match v
    case List(l) => |l| < TWO_TO_THE_63 && forall i | 0 <= i < |l| :: Fits(l[i])
    case HashMap(m) => forall k | k in m :: Fits(m[k])
    case Json(m) => forall k | k in m :: Fits(m[k])
    case _ => true
  }

  /** Inserting under a string key: an existing slot keeps its place. */
  function Put(kvs: seq<Slot>, name: Text, val: Zval): seq<Slot> {
    if kvs == [] then [Slot(StringKey(name), val)]
    else if kvs[0].key == StringKey(name) then [Slot(StringKey(name), val)] + kvs[1..]
    else [kvs[0]] + Put(kvs[1..], name, val)
  }

  lemma {:induction false} PutSlots(kvs: seq<Slot>, name: Text, val: Zval)
    ensures forall s | s in Put(kvs, name, val) :: s == Slot(StringKey(name), val) || s in kvs
  {
    if kvs != [] && kvs[0].key != StringKey(name) {
      PutSlots(kvs[1..], name, val);
    }
  }

  lemma {:induction false} PutKeys(kvs: seq<Slot>, name: Text, val: Zval)
    ensures forall key :: HasKey(Put(kvs, name, val), key) <==> HasKey(kvs, key) || key == StringKey(name)
  {
    var res := Put(kvs, name, val);
    HasKeyCons(res);
    if kvs != [] {
      HasKeyCons(kvs);
      if kvs[0].key == StringKey(name) {
        assert res[1..] == kvs[1..];
      } else {
        PutKeys(kvs[1..], name, val);
        assert res[1..] == Put(kvs[1..], name, val);
      }
    }
  }

  lemma {:induction false} PutDistinct(kvs: seq<Slot>, name: Text, val: Zval)
    requires DistinctSlots(kvs)
    ensures DistinctSlots(Put(kvs, name, val))
  {
    var res := Put(kvs, name, val);
    if kvs != [] {
      DistinctCons(kvs);
      DistinctCons(res);
      if kvs[0].key == StringKey(name) {
        assert res[1..] == kvs[1..];
      } else {
        PutDistinct(kvs[1..], name, val);
        PutKeys(kvs[1..], name, val);
        assert res[1..] == Put(kvs[1..], name, val);
      }
    }
  }

  lemma HasKeyCons(kvs: seq<Slot>)
    requires kvs != []
    ensures forall key :: HasKey(kvs, key) <==> kvs[0].key == key || HasKey(kvs[1..], key)
  {
    forall key ensures HasKey(kvs, key) <==> kvs[0].key == key || HasKey(kvs[1..], key) {
      if HasKey(kvs, key) {
        var j :| 0 <= j < |kvs| && kvs[j].key == key;
        assert j > 0 ==> kvs[1..][j - 1].key == key;
      }
      if HasKey(kvs[1..], key) {
        var j :| 0 <= j < |kvs[1..]| && kvs[1..][j].key == key;
        assert kvs[j + 1].key == key;
      }
    }
  }

  lemma DistinctCons(kvs: seq<Slot>)
    requires kvs != []
    ensures DistinctSlots(kvs) <==> DistinctSlots(kvs[1..]) && !HasKey(kvs[1..], kvs[0].key)
  {
    var tail := kvs[1..];
    assert forall j | 0 <= j < |tail| :: tail[j] == kvs[j + 1];
    if DistinctSlots(tail) && !HasKey(tail, kvs[0].key) {
      forall i, j | 0 <= i < j < |kvs| ensures kvs[i].key != kvs[j].key {
        assert kvs[j] == tail[j - 1];
        assert i > 0 ==> kvs[i] == tail[i - 1];
      }
    }
  }

  /** `set_zval`, as a value; the loop over a hash map takes the remaining keys in an arbitrary order. */
  method IntoZval(r: Rendering, v: PhpValue) returns (z: Zval)
    requires Fits(v)
    ensures Shows(r, v, z)
    decreases v
  {
    match v
    case Nil => z := NullZ;
    case Bool(b) => z := BoolZ(b);
    case Int(i) => z := LongZ(i);
    case UInt(u) => z := LongZ(AsI64(u));
    case Float(f) => z := DoubleZ(f);
    case Str(s) => z := StringZ(Some(s));
    case List(l) =>
      var kvs: seq<Slot> := [];
      for i := 0 to |l|
        invariant |kvs| == i
        invariant forall j | 0 <= j < i ::
                    kvs[j].key.LongKey? && kvs[j].key.index == j && Shows(r, l[j], kvs[j].val)
      {
        var e := IntoZval(r, l[i]);
        kvs := kvs + [Slot(LongKey(i), e)];
      }
      z := ArrayZ(kvs);
    case HashMap(m) =>
      var kvs: seq<Slot> := [];
      var rest := m.Keys;
      while rest != {}
        invariant rest <= m.Keys && DistinctSlots(kvs)
        invariant forall s | s in kvs :: EntryShows(r, v, s)
        invariant forall k | k in m && k !in rest :: HasKey(kvs, StringKey(KeyText(r, k)))
        decreases rest
      {
        var k :| k in rest;
        var e := IntoZval(r, m[k]);
        PutSlots(kvs, KeyText(r, k), e);
        PutKeys(kvs, KeyText(r, k), e);
        PutDistinct(kvs, KeyText(r, k), e);
        assert EntryShows(r, v, Slot(StringKey(KeyText(r, k)), e));
        kvs, rest := Put(kvs, KeyText(r, k), e), rest - {k};
      }
      z := ArrayZ(kvs);
    case Json(m) =>
      var kvs: seq<Slot> := [];
      var rest := m.Keys;
      while rest != {}
        invariant rest <= m.Keys && DistinctSlots(kvs)
        invariant forall s | s in kvs ::
                    s.key.StringKey? && s.key.name in m && Shows(r, m[s.key.name], s.val)
        invariant forall k | k in m && k !in rest :: HasKey(kvs, StringKey(k))
        decreases rest
      {
        var k :| k in rest;
        var e := IntoZval(r, m[k]);
        PutSlots(kvs, k, e);
        PutKeys(kvs, k, e);
        PutDistinct(kvs, k, e);
        kvs, rest := Put(kvs, k, e), rest - {k};
      }
      z := ArrayZ(kvs);
    case GeoJson(g) => z := GeoJsonObject(g);
    case Blob(b) => z := BlobObject(b);
    case Hll(b) => z := HllObject(b);
    case Infinity => z := InfinityObject;
    case Wildcard => z := WildcardObject;
  }

  // ----- Written and returned -----

  /** Equal up to the order of the slots of arrays. */
  ghost predicate Same(z: Zval, z': Zval)
    decreases z
  {
    if z.ArrayZ? then
      && z'.ArrayZ?
      && (forall i | 0 <= i < |z.kvs| :: SlotReturned(z.kvs[i], z'.kvs))
      && KeysWritten(z.kvs, z'.kvs)
    else z == z'
  }

  ghost predicate SlotReturned(slot: Slot, kvs': seq<Slot>)
    decreases slot
  {
    exists j :: 0 <= j < |kvs'| && kvs'[j].key == slot.key && Same(slot.val, kvs'[j].val)
  }

  ghost predicate KeysWritten(kvs: seq<Slot>, kvs': seq<Slot>) {
    forall j | 0 <= j < |kvs'| :: HasKey(kvs, kvs'[j].key)
  }

  predicate NamedOnly(kvs: seq<Slot>) {
    forall i | 0 <= i < |kvs| :: kvs[i].key.StringKey?
  }

  /** Every array in it is sequential or has string keys only. */
  ghost predicate Plain(z: Zval)
  {
    z.ArrayZ? ==>
      && (HasSequentialKeys(z.kvs) || NamedOnly(z.kvs))
      && forall i | 0 <= i < |z.kvs| :: Plain(z.kvs[i].val)
  }

  /** The slots that show the entries of a map. */
  ghost predicate MapSlots(r: Rendering, n: PhpValue, kvs': seq<Slot>) {
    && n.HashMap? && DistinctSlots(kvs')
    && (forall j | 0 <= j < |kvs'| :: EntryShows(r, n, kvs'[j]))
    && (forall k | k in n.m :: HasKey(kvs', StringKey(KeyText(r, k))))
  }

  lemma MapShown(r: Rendering, z: Zval, n: PhpValue, z': Zval)
    requires z.ArrayZ? && !HasSequentialKeys(z.kvs) && Means(z, n) && Shows(r, n, z')
    ensures ReadsAs(z.kvs, n) && z'.ArrayZ? && MapSlots(r, n, z'.kvs)
  {
  }

  /** An entry shown is that of a slot the conversion keeps. */
  lemma EntryWritten(r: Rendering, kvs: seq<Slot>, n: PhpValue, slot: Slot) returns (i: nat)
    requires ReadsAs(kvs, n) && EntryShows(r, n, slot)
    ensures Kept(kvs, i) && slot.key == StringKey(KeyText(r, ReadKey(kvs[i].key)))
    ensures ReadKey(kvs[i].key) in n.m && Shows(r, n.m[ReadKey(kvs[i].key)], slot.val)
  {
    var k :| k in n.m && KeyText(r, k) == slot.key.name && Shows(r, n.m[k], slot.val);
    i :| Kept(kvs, i) && ReadKey(kvs[i].key) == k;
  }

  /** A slot that a conversion keeps comes back, under the text of its key. */
  lemma SlotShown(r: Rendering, kvs: seq<Slot>, n: PhpValue, kvs': seq<Slot>, i: nat) returns (j: nat)
    requires ReadsAs(kvs, n) && MapSlots(r, n, kvs') && Kept(kvs, i)
    ensures j < |kvs'| && kvs'[j].key == StringKey(KeyText(r, ReadKey(kvs[i].key)))
    ensures ReadKey(kvs[i].key) in n.m && Shows(r, n.m[ReadKey(kvs[i].key)], kvs'[j].val)
  {
    assert SlotMeans(kvs[i], n.m);
    assert HasKey(kvs', StringKey(KeyText(r, ReadKey(kvs[i].key))));
    j :| 0 <= j < |kvs'| && kvs'[j].key == StringKey(KeyText(r, ReadKey(kvs[i].key)));
    var i' := EntryWritten(r, kvs, n, kvs'[j]);
    TextsDiffer(r, kvs, i, i');
  }

  /** Among the keys that are kept, all integers or all strings, no two have the same text. */
  lemma TextsDiffer(r: Rendering, kvs: seq<Slot>, i: nat, i': nat)
    requires Kept(kvs, i) && Kept(kvs, i') && KeyText(r, ReadKey(kvs[i].key)) == KeyText(r, ReadKey(kvs[i'].key))
    ensures kvs[i].key == kvs[i'].key
  {
    if HasNumericalKeys(kvs) {
      SignedTextInjective(kvs[i].key.index, kvs[i'].key.index);
    }
  }

  /** The value PHP gets for what it wrote is the one written, up to the order of slots, exactly if every
      array in it is sequential or has string keys only: integer keys come back as texts. */
  lemma {:induction false} ReturnedAsWritten(r: Rendering, z: Zval, n: PhpValue, z': Zval)
    requires IsPhpValue(z) && Means(z, n) && Shows(r, n, z')
    ensures Same(z, z') <==> Plain(z)
    decreases z, 1
  {
    if z.ArrayZ? {
      if HasSequentialKeys(z.kvs) {
        SequentialReturned(r, z, n, z');
      } else {
        MapShown(r, z, n, z');
        if NamedOnly(z.kvs) {
          NamesReturned(r, z, n, z');
        } else {
          IntegersReturned(r, z, n, z');
        }
      }
    }
  }

  lemma {:induction false} SequentialReturned(r: Rendering, z: Zval, n: PhpValue, z': Zval)
    requires IsPhpValue(z) && Means(z, n) && Shows(r, n, z') && z.ArrayZ? && HasSequentialKeys(z.kvs)
    ensures Same(z, z') <==> Plain(z)
    decreases z, 0
  {
    forall i | 0 <= i < |z.kvs| ensures SlotReturned(z.kvs[i], z'.kvs) <==> Plain(z.kvs[i].val) {
      ReturnedAsWritten(r, z.kvs[i].val, n.l[i], z'.kvs[i].val);
      SlotReturnedIff(z.kvs[i], z'.kvs, i);
    }
    forall j | 0 <= j < |z'.kvs| ensures HasKey(z.kvs, z'.kvs[j].key) {
      assert z.kvs[j].key == z'.kvs[j].key;
    }
    SlotsReturnedIff(z, z');
  }

  lemma {:induction false} NamesReturned(r: Rendering, z: Zval, n: PhpValue, z': Zval)
    requires z.ArrayZ? && NamedOnly(z.kvs) && !HasSequentialKeys(z.kvs)
    requires forall i | 0 <= i < |z.kvs| :: IsPhpValue(z.kvs[i].val)
    requires ReadsAs(z.kvs, n) && z'.ArrayZ? && MapSlots(r, n, z'.kvs)
    ensures Same(z, z') <==> Plain(z)
    decreases z, 0
  {
    forall i | 0 <= i < |z.kvs| ensures SlotReturned(z.kvs[i], z'.kvs) <==> Plain(z.kvs[i].val) {
      NameReturned(r, z.kvs, n, z'.kvs, i);
    }
    NamesWritten(r, z.kvs, n, z'.kvs);
    SlotsReturnedIff(z, z');
  }

  lemma {:induction false} NameReturned(r: Rendering, kvs: seq<Slot>, n: PhpValue, kvs': seq<Slot>, i: nat)
    requires Kept(kvs, i) && kvs[i].key.StringKey? && IsPhpValue(kvs[i].val)
    requires ReadsAs(kvs, n) && MapSlots(r, n, kvs')
    ensures SlotReturned(kvs[i], kvs') <==> Plain(kvs[i].val)
    decreases kvs[i], 0
  {
    assert SlotMeans(kvs[i], n.m);
    var j := SlotShown(r, kvs, n, kvs', i);
    ReturnedAsWritten(r, kvs[i].val, n.m[ReadKey(kvs[i].key)], kvs'[j].val);
    SlotReturnedIff(kvs[i], kvs', j);
  }

  lemma NamesWritten(r: Rendering, kvs: seq<Slot>, n: PhpValue, kvs': seq<Slot>)
    requires NamedOnly(kvs) && ReadsAs(kvs, n) && MapSlots(r, n, kvs')
    ensures KeysWritten(kvs, kvs')
  {
    forall j | 0 <= j < |kvs'| ensures HasKey(kvs, kvs'[j].key) {
      var i := EntryWritten(r, kvs, n, kvs'[j]);
      assert kvs[i].key == kvs'[j].key;
    }
  }

  lemma SlotReturnedIff(slot: Slot, kvs': seq<Slot>, j: nat)
    requires DistinctSlots(kvs') && j < |kvs'| && kvs'[j].key == slot.key
    requires Same(slot.val, kvs'[j].val) <==> Plain(slot.val)
    ensures SlotReturned(slot, kvs') <==> Plain(slot.val)
  {
    assert forall j' | 0 <= j' < |kvs'| && kvs'[j'].key == slot.key :: j' == j;
  }

  lemma SlotsReturnedIff(z: Zval, z': Zval)
    requires z.ArrayZ? && z'.ArrayZ? && KeysWritten(z.kvs, z'.kvs)
    requires HasSequentialKeys(z.kvs) || NamedOnly(z.kvs)
    requires forall i | 0 <= i < |z.kvs| :: SlotReturned(z.kvs[i], z'.kvs) <==> Plain(z.kvs[i].val)
    ensures Same(z, z') <==> Plain(z)
  {
  }

  /** Any other array has an integer key, and none comes back. */
  lemma IntegersReturned(r: Rendering, z: Zval, n: PhpValue, z': Zval)
    requires z.ArrayZ? && !HasSequentialKeys(z.kvs) && !NamedOnly(z.kvs)
    requires z'.ArrayZ? && MapSlots(r, n, z'.kvs)
    ensures !Same(z, z') && !Plain(z)
  {
    var i :| 0 <= i < |z.kvs| && z.kvs[i].key.LongKey?;
    forall j | 0 <= j < |z'.kvs| ensures z'.kvs[j].key != z.kvs[i].key {
      assert EntryShows(r, n, z'.kvs[j]);
    }
    assert !SlotReturned(z.kvs[i], z'.kvs);
  }

  /** `[5 => null]` comes back as `["5" => null]`. */
  lemma IntegerKeyExample(r: Rendering, n: PhpValue, z': Zval)
    requires Means(ArrayZ([Slot(LongKey(5), NullZ)]), n) && Shows(r, n, z')
    ensures z' == ArrayZ([Slot(StringKey([ZERO + 5]), NullZ)])
  {
    var kvs := [Slot(LongKey(5), NullZ)];
    assert kvs[0].key == LongKey(5) && HasNumericalKeys(kvs);
    MapShown(r, ArrayZ(kvs), n, z');
    FiveShown(r, kvs, n, z'.kvs);
  }

  lemma FiveShown(r: Rendering, kvs: seq<Slot>, n: PhpValue, kvs': seq<Slot>)
    requires kvs == [Slot(LongKey(5), NullZ)] && ReadsAs(kvs, n) && MapSlots(r, n, kvs')
    ensures kvs' == [Slot(StringKey([ZERO + 5]), NullZ)]
  {
    assert Kept(kvs, 0) && SlotMeans(kvs[0], n.m);
    var j := SlotShown(r, kvs, n, kvs', 0);
    forall s | s in kvs' ensures s.key == StringKey([ZERO + 5]) {
      var i := EntryWritten(r, kvs, n, s);
    }
    OneSlot(kvs', kvs'[j]);
  }

  lemma OneSlot(kvs: seq<Slot>, slot: Slot)
    requires DistinctSlots(kvs) && slot in kvs && forall s | s in kvs :: s.key == slot.key
    ensures kvs == [slot]
  {
    if |kvs| > 1 {
      SameKeyTwice(kvs, slot.key);
    }
  }

  lemma SameKeyTwice(kvs: seq<Slot>, key: ArrayKey)
    requires |kvs| > 1 && forall s | s in kvs :: s.key == key
    ensures !DistinctSlots(kvs)
  {
    assert kvs[0] in kvs && kvs[1] in kvs;
  }
}
