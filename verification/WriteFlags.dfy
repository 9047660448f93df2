/** Sets of flags as 32-bit words. */
module Bits {
  function Or(a: bv32, b: bv32): bv32 { a | b }

  function And(a: bv32, b: bv32): bv32 { a & b }

  predicate NonZero(a: bv32) {
    a != 0
  }

  predicate Meets(flag: bv32, mask: bv32) {
    NonZero(And(flag, mask))
  }

  lemma OrMeetsAt(a: bv32, b: bv32, mask: bv32)
    ensures Meets(Or(a, b), mask) == (Meets(a, mask) || Meets(b, mask))
  {
    AndDistributes(a, b, mask);
    OrNonZero(And(a, mask), And(b, mask));
  }

  lemma AndDistributes(a: bv32, b: bv32, mask: bv32)
    ensures And(Or(a, b), mask) == Or(And(a, mask), And(b, mask))
  {
  }

  lemma OrNonZero(a: bv32, b: bv32)
    ensures NonZero(Or(a, b)) == (NonZero(a) || NonZero(b))
  {
  }

  predicate Within(a: bv32, b: bv32) {
    a & !b == 0
  }

  lemma WithinAntisymmetric(a: bv32, b: bv32)
    requires Within(a, b) && Within(b, a)
    ensures a == b
  {
  }

  lemma OrZero(a: bv32)
    ensures Or(a, 0) == a
  {
  }

  lemma OrAssociates(a: bv32, b: bv32, c: bv32)
    ensures Or(Or(a, b), c) == Or(a, Or(b, c))
  {
  }
}

/** Write flags of list and map policies, folded to one number by the client (src/lib.rs). */
module WriteFlags {
  import opened Bits

  function Fold<T>(op: (T, T) -> T, zero: T, s: seq<T>): T {
    if s == [] then zero else op(Fold(op, zero, s[..|s| - 1]), s[|s| - 1])
  }

  lemma {:induction false} FoldHits<T(!new)>(op: (T, T) -> T, zero: T, p: T -> bool, s: seq<T>)
    requires !p(zero) && forall a, b :: p(op(a, b)) <==> p(a) || p(b)
    ensures p(Fold(op, zero, s)) <==> exists i :: 0 <= i < |s| && p(s[i])
  {
    if s != [] {
      var init := s[..|s| - 1];
      FoldHits(op, zero, p, init);
      assert forall i | 0 <= i < |init| :: init[i] == s[i];
    }
  }

  /** The flags value of a list or map policy. */
  function FoldFlags(flags: seq<bv32>): bv32 {
    Fold(Or, 0, flags)
  }

  /** Some bit of a mask is set in the fold exactly if some listed flag has a bit of the mask. */
  lemma FoldMeets(flags: seq<bv32>, mask: bv32)
    ensures Meets(FoldFlags(flags), mask) <==> exists i :: 0 <= i < |flags| && Meets(flags[i], mask)
  {
    OrMeets(mask);
    FoldHits(Or, 0, f => Meets(f, mask), flags);
  }

  lemma OrMeets(mask: bv32)
    ensures !Meets(0, mask) && forall a, b :: Meets(Or(a, b), mask) <==> Meets(a, mask) || Meets(b, mask)
  {
    forall a: bv32, b: bv32
      ensures Meets(Or(a, b), mask) <==> Meets(a, mask) || Meets(b, mask)
    {
      OrMeetsAt(a, b, mask);
    }
  }

  lemma FoldWithin(flags: seq<bv32>, others: seq<bv32>)
    requires forall f :: f in flags ==> f in others
    ensures Within(FoldFlags(flags), FoldFlags(others))
  {
    var rest := !FoldFlags(others);
    assert !Meets(FoldFlags(others), rest);
    FoldMeets(others, rest);
    FoldMeets(flags, rest);
    forall i | 0 <= i < |flags| ensures !Meets(flags[i], rest) {
      assert flags[i] in others;
      var j :| 0 <= j < |others| && others[j] == flags[i];
    }
  }

  /** The fold depends only on which flags occur, not on their order or number. */
  lemma FoldSameFlags(flags: seq<bv32>, others: seq<bv32>)
    requires forall f :: f in flags <==> f in others
    ensures FoldFlags(flags) == FoldFlags(others)
  {
    FoldWithin(flags, others);
    FoldWithin(others, flags);
    WithinAntisymmetric(FoldFlags(flags), FoldFlags(others));
  }

  /** Concatenating two lists of flags combines their folds bit by bit. */
  lemma {:induction false} FoldConcat(flags: seq<bv32>, others: seq<bv32>)
    ensures FoldFlags(flags + others) == Or(FoldFlags(flags), FoldFlags(others))
  {
    if others == [] {
      assert flags + others == flags;
      OrZero(FoldFlags(flags));
    } else {
      var init, last := others[..|others| - 1], others[|others| - 1];
      FoldConcat(flags, init);
      assert (flags + others)[..|flags| + |init|] == flags + init;
      OrAssociates(FoldFlags(flags), FoldFlags(init), last);
    }
  }
}
