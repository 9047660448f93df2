/** A PHP value on its way to the database and back: converted and encoded in Rust, decoded and encoded
    again in Go, decoded in Rust and handed to PHP. */
module WriteRead {
  import opened Basics
  import opened Wire
  import P = PhpCodec
  import G = GoCodec
  import opened PhpArray
  import opened PhpReturn

  // ----- What a conversion can produce -----

  /** All keys of the map are unsigned integers or all are strings, at every depth. */
  ghost predicate ArrayKeys(v: P.PhpValue)
  {
    match v
    case List(l) => forall x | x in l :: ArrayKeys(x)
    case HashMap(m) =>
      && ((forall k | k in m :: k.UInt?) || (forall k | k in m :: k.Str?))
      && forall k | k in m :: ArrayKeys(m[k])
    case _ => true
  }

  /** A PHP value is converted to a value all of whose map keys are unsigned integers or strings. */
  lemma {:induction false} ConvertedKeys(z: Zval, v: P.PhpValue)
    requires FromZval(z) == Ok(Some(v))
    ensures G.ScalarKeys(v) && ArrayKeys(v)
    decreases z
  {
    if z.ArrayZ? {
      if HasSequentialKeys(z.kvs) {
        ElementsKeys(z.kvs);
      } else {
        EntriesScalar(z.kvs, HasNumericalKeys(z.kvs));
      }
    }
  }

  lemma {:induction false} ElementsKeys(kvs: seq<Slot>)
    requires Elements(kvs).Ok?
    ensures forall x | x in Elements(kvs).value :: G.ScalarKeys(x) && ArrayKeys(x)
    decreases kvs
  {
    if kvs != [] {
      var last := kvs[|kvs| - 1];
      ElementsKeys(kvs[..|kvs| - 1]);
      assert last.val < last;
      ConvertedKeys(last.val, FromSlot(last).value);
    }
  }

  lemma {:induction false} EntriesScalar(kvs: seq<Slot>, long: bool)
    requires Entries(kvs, long).Ok?
    ensures forall k | k in Entries(kvs, long).value ::
              && (if long then k.UInt? else k.Str?)
              && G.ScalarKeys(Entries(kvs, long).value[k]) && ArrayKeys(Entries(kvs, long).value[k])
    decreases kvs
  {
    if kvs != [] {
      var last := kvs[|kvs| - 1];
      EntriesScalar(kvs[..|kvs| - 1], long);
      if last.key.LongKey? == long {
        assert last.val < last;
        ConvertedKeys(last.val, FromSlot(last).value);
      }
    }
  }

  /** Go accepts what is written for any PHP value. */
  lemma ConvertedAccepted(z: Zval, v: P.PhpValue, w: Value)
    requires FromZval(z) == Ok(Some(v)) && P.Encodes(v, w)
    ensures G.ToValue(w).Ok?
  {
    ConvertedKeys(z, v);
    G.RequestAccepted(v, w);
  }

  // ----- There and back -----

  /** What is assumed of the Go client: for a value `g` it was given to write it returns a value of the
      same meaning, without JSON and without keys that mean the same. */
  ghost predicate HandsOut(g: G.GoAny, a: G.GoAny) {
    G.Meaning(a) == G.Meaning(g) && G.JsonEmpty(a) && G.KeysStayDistinct(a)
  }

  /** Every PHP value that can be converted is accepted by Go, and when it is read again the Rust client
      decodes what it means: lists, maps under the same signed integers, or maps of the string-keyed
      entries. What PHP then gets is what it wrote, up to the order of slots, exactly if every array in it
      is sequential or has string keys only. */
  lemma PhpWriteThenRead(z: Zval, v: P.PhpValue, w: Value, a: G.GoAny, w': Value)
    requires IsPhpValue(z) && FromZval(z) == Ok(Some(v)) && P.Encodes(v, w)
    requires G.ToValue(w).Ok? ==> HandsOut(G.ToValue(w).value, a)
    requires G.Encodes(a, w')
    ensures G.ToValue(w).Ok?
    ensures P.Decode(w').Ok? && Means(z, P.Decode(w').value)
    ensures forall r, z' | Shows(r, P.Decode(w').value, z') :: Same(z, z') <==> Plain(z)
  {
    ConvertedAccepted(z, v, w);
    ConvertedKeys(z, v);
    FromZvalMeans(z);
    G.WriteThenRead(v, w, a, w');
    var n := P.Decode(w').value;
    forall r, z' | Shows(r, n, z') ensures Same(z, z') <==> Plain(z) {
      ReturnedAsWritten(r, z, n, z');
    }
  }
}
