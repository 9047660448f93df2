/** Shared vocabulary: optional values, panicking computations, fixed-width integers and
    last-write-wins construction of a map from a list of pairs. */
module Basics {

  datatype Option<+T> = None | Some(value: T)

  /** What a call returns when the source may panic (Rust `unwrap`, Go run-time error). */
  datatype Outcome<+T> = Panic | Ok(value: T)

  type byte = b: int | 0 <= b < 256

  /** A string is the sequence of its UTF-8 bytes, in Rust and in Go. */
  type Text = seq<byte>

  const TWO_TO_THE_63: int := 0x8000_0000_0000_0000
  const TWO_TO_THE_64: int := 0x1_0000_0000_0000_0000

  type int64 = i: int | -TWO_TO_THE_63 <= i < TWO_TO_THE_63
  type uint64 = u: int | 0 <= u < TWO_TO_THE_64

  /** Rust's `u as i64`. */
  function AsI64(u: uint64): (i: int64)
    ensures (i - u) % TWO_TO_THE_64 == 0
  {
    if u < TWO_TO_THE_63 then u else u - TWO_TO_THE_64
  }

  /** Rust's `i as u64`. */
  function AsU64(i: int64): (u: uint64)
    ensures AsI64(u) == i
  {
    if 0 <= i then i else i + TWO_TO_THE_64
  }

  /** A 64-bit float, kept as its bit pattern and only ever compared for equality. */
  datatype Double = Double(bits: uint64)

  /** Inserts the pairs from left to right; a later pair overwrites an earlier one. */
  function InsertAll<K, V>(ps: seq<(K, V)>): map<K, V>
  {
    if ps == [] then map[]
    else InsertAll(ps[..|ps| - 1])[ps[|ps| - 1].0 := ps[|ps| - 1].1]
  }

  ghost predicate DistinctKeys<K(!new), V>(ps: seq<(K, V)>) {
    forall i, j :: 0 <= i < j < |ps| ==> ps[i].0 != ps[j].0
  }

  /** `ks` visits every element of `keys` once: one possible hash-map iteration order. */
  ghost predicate Iterates<K(!new)>(ks: seq<K>, keys: set<K>) {
    && (forall k :: k in ks <==> k in keys)
    && (forall i, j :: 0 <= i < j < |ks| ==> ks[i] != ks[j])
  }

  lemma {:induction false} IteratesCount<K(!new)>(ks: seq<K>, keys: set<K>)
    requires Iterates(ks, keys)
    ensures |ks| == |keys|
    decreases |ks|
  {
    if ks == [] {
      assert keys == {};
    } else {
      var init, last := ks[..|ks| - 1], ks[|ks| - 1];
      assert forall k :: k in init <==> k in keys - {last};
      IteratesCount(init, keys - {last});
    }
  }

  lemma {:induction false} InsertAllKeys<K(!new), V>(ps: seq<(K, V)>)
    ensures forall i :: 0 <= i < |ps| ==> ps[i].0 in InsertAll(ps)
    ensures forall k :: k in InsertAll(ps) ==> exists i :: 0 <= i < |ps| && ps[i].0 == k
  {
    if ps != [] {
      var init := ps[..|ps| - 1];
      InsertAllKeys(init);
      forall k | k in InsertAll(ps)
        ensures exists i :: 0 <= i < |ps| && ps[i].0 == k
      {
        if k in InsertAll(init) {
          var i :| 0 <= i < |init| && init[i].0 == k;
          assert ps[i].0 == k;
        } else {
          assert ps[|ps| - 1].0 == k;
        }
      }
      forall i | 0 <= i < |ps|
        ensures ps[i].0 in InsertAll(ps)
      {
        if i < |ps| - 1 {
          assert init[i] == ps[i];
        }
      }
    }
  }

  /** When no key repeats, nothing is overwritten. */
  lemma {:induction false} InsertAllDistinct<K(!new), V>(ps: seq<(K, V)>)
    requires DistinctKeys(ps)
    ensures forall i :: 0 <= i < |ps| ==> ps[i].0 in InsertAll(ps) && InsertAll(ps)[ps[i].0] == ps[i].1
    ensures |InsertAll(ps)| == |ps|
  {
    InsertAllKeys(ps);
    if ps != [] {
      var init := ps[..|ps| - 1];
      InsertAllDistinct(init);
      InsertAllKeys(init);
      assert ps[|ps| - 1].0 !in InsertAll(init);
      forall i | 0 <= i < |ps|
        ensures InsertAll(ps)[ps[i].0] == ps[i].1
      {
        if i < |ps| - 1 {
          assert init[i] == ps[i];
        }
      }
    }
  }

  /** An entry is lost for every repetition of a key. */
  lemma {:induction false} InsertAllCount<K(!new), V>(ps: seq<(K, V)>)
    ensures |InsertAll(ps)| <= |ps|
    ensures |InsertAll(ps)| == |ps| <==> DistinctKeys(ps)
  {
    if ps != [] {
      var init, last := ps[..|ps| - 1], ps[|ps| - 1];
      InsertAllCount(init);
      InsertAllKeys(init);
      if DistinctKeys(ps) {
        InsertAllDistinct(ps);
      } else if DistinctKeys(init) {
        var i, j :| 0 <= i < j < |ps| && ps[i].0 == ps[j].0;
        assert j == |ps| - 1 && init[i].0 == last.0;
        assert InsertAll(ps).Keys == InsertAll(init).Keys;
      }
    }
  }

  /** `ps` lists the entries of `n`, each key once. */
  ghost predicate Lists<K(!new), V>(ps: seq<(K, V)>, n: map<K, V>) {
    && DistinctKeys(ps)
    && (forall i :: 0 <= i < |ps| ==> ps[i].0 in n && n[ps[i].0] == ps[i].1)
    && (forall k :: k in n ==> exists i :: 0 <= i < |ps| && ps[i].0 == k)
  }

  /** Inserting a listing of `n`, in whatever order, rebuilds `n`. */
  lemma InsertAllLists<K(!new), V>(ps: seq<(K, V)>, n: map<K, V>)
    requires Lists(ps, n)
    ensures InsertAll(ps) == n
  {
    InsertAllDistinct(ps);
    InsertAllKeys(ps);
  }

  /** Two lists inserted in step, with the same keys repeating at the same places, keep the values of
      the same positions. */
  lemma {:induction false} InsertAllInStep<K(!new), V, A(!new), B>(ps: seq<(K, V)>, qs: seq<(A, B)>, i: nat)
    returns (j: nat)
    requires |ps| == |qs| && i < |ps|
    requires forall i, j :: 0 <= i < |ps| && 0 <= j < |ps| ==> (ps[i].0 == ps[j].0 <==> qs[i].0 == qs[j].0)
    ensures j < |ps| && ps[j].0 == ps[i].0
    ensures ps[i].0 in InsertAll(ps) && InsertAll(ps)[ps[i].0] == ps[j].1
    ensures qs[i].0 in InsertAll(qs) && InsertAll(qs)[qs[i].0] == qs[j].1
  {
    var n := |ps| - 1;
    if ps[i].0 == ps[n].0 {
      j := n;
    } else {
      j := InsertAllInStep(ps[..n], qs[..n], i);
    }
  }
}
