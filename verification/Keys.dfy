/** Record keys: the bytes fed to the digest, and the partition a digest belongs to. */
module Keys {
  import opened Basics
  import opened Wire
  import opened PhpCodec

  const PARTITIONS: nat := 4096

  /** RIPEMD-160, left uninterpreted. */
  type Hash = seq<byte> -> seq<byte>

  /** The `k` low-order bytes of `n`, most significant first. */
  function BigEndian(n: nat, k: nat): (bs: seq<byte>)
    ensures |bs| == k
  {
    if k == 0 then [] else BigEndian(n / 256, k - 1) + [n % 256]
  }

  function FromBigEndian(bs: seq<byte>): nat {
    if bs == [] then 0 else 256 * FromBigEndian(bs[..|bs| - 1]) + bs[|bs| - 1]
  }

  function Pow256(k: nat): nat {
    if k == 0 then 1 else 256 * Pow256(k - 1)
  }

  lemma {:induction false} BigEndianInverse(n: nat, k: nat)
    requires n < Pow256(k)
    ensures FromBigEndian(BigEndian(n, k)) == n
  {
    if k > 0 {
      BigEndianInverse(n / 256, k - 1);
      assert BigEndian(n, k)[..k - 1] == BigEndian(n / 256, k - 1);
    }
  }

  /** The type byte; a value without one is declared unreachable. */
  function ParticleType(v: PhpValue): Outcome<byte> {
    match v
    case Nil => Ok(0)
    case Int(_) => Ok(1)
    case UInt(_) => Ok(1)
    case Float(_) => Ok(2)
    case Str(_) => Ok(3)
    case Blob(_) => Ok(4)
    case Bool(_) => Ok(17)
    case Hll(_) => Ok(18)
    case HashMap(_) => Ok(19)
    case Json(_) => Ok(19)
    case List(_) => Ok(20)
    case GeoJson(_) => Ok(23)
    case Infinity => Panic
    case Wildcard => Panic
  }

  function KeyBytes(v: PhpValue): Option<seq<byte>> {
    match v
    case Int(i) => Some(BigEndian(AsU64(i), 8))
    case Str(s) => Some(s)
    case Blob(b) => Some(b)
    case _ => None
  }

  /** What `compute_digest` feeds to the hash; `None` when it returns an empty digest instead. */
  function PreImage(key: Key): Outcome<Option<seq<byte>>> {
    if key.set_.None? || key.value.None? then Ok(None) else
    var v := Decode(key.value.value);
    if v.Panic? || ParticleType(v.value).Panic? then Panic else
    var bytes := KeyBytes(v.value);
    Ok(if bytes.Some? then Some(key.set_.value + [ParticleType(v.value).value] + bytes.value) else None)
  }

  function ComputeDigest(h: Hash, key: Key): Outcome<seq<byte>> {
    var p := PreImage(key);
    if p.Panic? then Panic else Ok(if p.value.Some? then h(p.value.value) else [])
  }

  /** The stored digest if there is one. The computed digest is evaluated in either case. */
  function DigestBytes(h: Hash, key: Key): Outcome<seq<byte>> {
    var computed := ComputeDigest(h, key);
    if computed.Ok? && key.digest.Some? then Ok(key.digest.value) else computed
  }

  /** The first four bytes as a little-endian number, masked to its twelve low-order bits. */
  function PartitionOfDigest(d: seq<byte>): nat
    requires |d| >= 4
  {
    var d0: int, d1: int, d2: int, d3: int := d[0], d[1], d[2], d[3];
    (d0 + 0x100 * d1 + 0x1_0000 * d2 + 0x100_0000 * d3) % PARTITIONS
  }

  /** Slicing a digest of fewer than four bytes panics. */
  function PartitionId(h: Hash, key: Key): Outcome<nat> {
    var d := DigestBytes(h, key);
    if d.Ok? && |d.value| >= 4 then Ok(PartitionOfDigest(d.value)) else Panic
  }

  /** The partition is the first byte and the low half of the second. */
  lemma PartitionOfDigestBytes(d: seq<byte>)
    requires |d| >= 4
    ensures PartitionOfDigest(d) == d[0] + 256 * (d[1] % 16) < PARTITIONS
  {
    var d0: int, d1: int, d2: int, d3: int := d[0], d[1], d[2], d[3];
    assert d0 + 0x100 * d1 + 0x1_0000 * d2 + 0x100_0000 * d3
        == d0 + 256 * (d1 % 16) + 4096 * (d1 / 16 + 16 * d2 + 4096 * d3);
  }

  /** `Key::__construct`, where `w` encodes the user key. */
  function NewKey(namespace: Text, set_: Text, w: Value): Key {
    Key(None, Some(namespace), Some(set_), Some(w))
  }

  predicate KeyType(v: PhpValue) {
    v.Int? || v.UInt? || v.Str? || v.Blob?
  }

  /** A user key has a pre-image exactly if it is an integer, a string or a blob, and computing it
      panics exactly on infinity and wildcard. */
  lemma PreImageDefined(namespace: Text, set_: Text, v: PhpValue, w: Value)
    requires Encodes(v, w)
    ensures PreImage(NewKey(namespace, set_, w)).Panic? <==> v.Infinity? || v.Wildcard?
    ensures PreImage(NewKey(namespace, set_, w)).Ok? ==>
              (PreImage(NewKey(namespace, set_, w)).value.Some? <==> KeyType(v))
  {
    EncodingsDecode(v, w);
  }

  /** The j-th byte of a big-endian number. */
  lemma {:induction false} BigEndianAt(n: nat, k: nat, j: nat)
    requires j < k
    ensures Pow256(k - 1 - j) > 0 && BigEndian(n, k)[j] == (n / Pow256(k - 1 - j)) % 256
  {
    Pow256Positive(k - 1 - j);
    if j < k - 1 {
      BigEndianAt(n / 256, k - 1, j);
      DivTwice(n, Pow256(k - 2 - j));
    }
  }

  lemma DivTwice(n: nat, m: nat)
    requires m > 0
    ensures 256 * m > 0 && n / 256 / m == n / (256 * m)
  {
    var q := n / 256 / m;
    var r := n / 256 - q * m;
    assert n == 256 * (q * m + r) + n % 256;
    assert n == q * (256 * m) + (256 * r + n % 256) && 0 <= 256 * r + n % 256 < 256 * m;
    QuotientIs(n, 256 * m, q, 256 * r + n % 256);
  }

  lemma QuotientIs(n: nat, d: nat, q: nat, r: nat)
    requires d > 0 && n == q * d + r && r < d
    ensures n / d == q
  {
    var q', r' := n / d, n % d;
    assert n == q' * d + r';
    if q < q' {
      AtLeastOnce(q, q', d);
    } else if q' < q {
      AtLeastOnce(q', q, d);
    }
  }

  lemma AtLeastOnce(a: int, b: int, d: nat)
    requires a < b
    ensures b * d >= a * d + d
  {
    assert (b - a - 1) * d >= 0;
    assert b * d == a * d + d + (b - a - 1) * d;
  }

  lemma {:induction false} Pow256Positive(k: nat)
    ensures Pow256(k) > 0
  {
    if k > 0 {
      Pow256Positive(k - 1);
    }
  }

  /** The layout of what is hashed: the set, then the type byte (1 for an integer, 3 for a string, 4 for a
      blob), then the string, the blob, or the eight bytes of the integer, most significant first. */
  lemma PreImageLayout(namespace: Text, set_: Text, v: PhpValue, w: Value)
    requires KeyType(v) && Encodes(v, w)
    ensures PreImage(NewKey(namespace, set_, w)).Ok? && PreImage(NewKey(namespace, set_, w)).value.Some?
    ensures var p, n := PreImage(NewKey(namespace, set_, w)).value.value, |set_|;
      && |p| > n && p[..n] == set_
      && p[n] == (if v.Str? then 3 else if v.Blob? then 4 else 1)
      && (v.Str? ==> p[n + 1..] == v.s) && (v.Blob? ==> p[n + 1..] == v.blob)
      && (v.Int? || v.UInt? ==>
            var u, bytes := if v.Int? then AsU64(v.i) else v.u, p[n + 1..];
            |bytes| == 8 && forall j :: 0 <= j < 8 ==> ByteOf(u, bytes, j))
  {
    RoundTrip(v, w);
    var n := Normalise(v);
    var p := set_ + [ParticleType(n).value] + KeyBytes(n).value;
    assert p[..|set_|] == set_ && p[|set_|] == ParticleType(n).value && p[|set_| + 1..] == KeyBytes(n).value;
    if n.Int? {
      var u: uint64 := if v.Int? then AsU64(v.i) else v.u;
      assert v.UInt? ==> AsI64(AsU64(AsI64(v.u))) == AsI64(v.u);
      assert AsU64(n.i) == u;
      forall j | 0 <= j < 8 ensures ByteOf(u, BigEndian(u, 8), j) {
        Pow256Positive(7 - j);
        BigEndianAt(u, 8, j);
      }
    }
  }

  /** Byte `j` of eight holds the bits of that weight. */
  predicate ByteOf(u: nat, bytes: seq<byte>, j: nat)
    requires j < 8
  {
    Pow256Positive(7 - j);
    j < |bytes| && bytes[j] == (u / Pow256(7 - j)) % 256
  }

  /** A key with a stored digest has that digest, one without has the hash of its pre-image; and that is
      where its partition comes from. */
  lemma DigestIs(h: Hash, key: Key, p: seq<byte>)
    requires PreImage(key) == Ok(Some(p))
    ensures DigestBytes(h, key) == Ok(match key.digest case Some(d) => d case None => h(p))
    ensures var d := DigestBytes(h, key).value;
      if |d| < 4 then PartitionId(h, key).Panic?
      else var b0: nat, b1: nat := d[0], d[1]; PartitionId(h, key) == Ok(b0 + 256 * (b1 % 16))
  {
    var d := DigestBytes(h, key).value;
    if |d| >= 4 {
      PartitionOfDigestBytes(d);
    }
  }

  /** A key of another type without a stored digest has an empty one, and asking for its partition panics. */
  lemma NoDigest(h: Hash, namespace: Text, set_: Text, v: PhpValue, w: Value)
    requires Encodes(v, w) && !KeyType(v) && !v.Infinity? && !v.Wildcard?
    ensures DigestBytes(h, NewKey(namespace, set_, w)) == Ok([]) && PartitionId(h, NewKey(namespace, set_, w)).Panic?
  {
    PreImageDefined(namespace, set_, v, w);
  }

  /** In one set, two user keys have the same pre-image exactly when they are the same integer
      modulo 2^64, the same string or the same blob. */
  lemma PreImageInjective(namespace: Text, set_: Text, v: PhpValue, w: Value, v': PhpValue, w': Value)
    requires KeyType(v) && Encodes(v, w) && KeyType(v') && Encodes(v', w')
    ensures PreImage(NewKey(namespace, set_, w)) == PreImage(NewKey(namespace, set_, w'))
            <==> Normalise(v) == Normalise(v')
  {
    var n, n' := Normalise(v), Normalise(v');
    RoundTrip(v, w);
    RoundTrip(v', w');
    var b, b' := KeyBytes(n).value, KeyBytes(n').value;
    var p, p' := set_ + [ParticleType(n).value] + b, set_ + [ParticleType(n').value] + b';
    if p == p' {
      assert p[|set_|] == ParticleType(n).value && p'[|set_|] == ParticleType(n').value;
      assert p[|set_| + 1..] == b && p'[|set_| + 1..] == b';
      if n.Int? {
        assert Pow256(8) == TWO_TO_THE_64 by { Pow256Of8(); }
        BigEndianInverse(AsU64(n.i), 8);
        BigEndianInverse(AsU64(n'.i), 8);
        assert AsI64(AsU64(n.i)) == n.i && AsI64(AsU64(n'.i)) == n'.i;
      }
    }
  }

  lemma Pow256Of8()
    ensures Pow256(8) == TWO_TO_THE_64
  {
    assert Pow256(2) == 0x1_0000;
    assert Pow256(4) == 0x1_0000_0000;
    assert Pow256(6) == 0x1_0000_0000_0000;
  }

  /** A key built from `UInt(u)` is the key built from `Int(u as i64)`. */
  lemma UnsignedKey(h: Hash, namespace: Text, set_: Text, u: uint64, w: Value, w': Value)
    requires Encodes(UInt(u), w) && Encodes(Int(AsI64(u)), w')
    ensures PreImage(NewKey(namespace, set_, w)) == PreImage(NewKey(namespace, set_, w'))
    ensures PartitionId(h, NewKey(namespace, set_, w)) == PartitionId(h, NewKey(namespace, set_, w'))
  {
    PreImageInjective(namespace, set_, UInt(u), w, Int(AsI64(u)), w');
  }
}
