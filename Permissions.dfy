/** The capability flags of blog/app/models.py (`Permission`) and the
    arithmetic `Role` performs on its integer `permissions` mask. The mask is
    a plain non-negative integer, as in the database column. */
module Permissions {
  import opened Bits

  const FOLLOW: nat := 1
  const COMMENT: nat := 2
  const WRITE: nat := 4
  const MODERATE: nat := 8
  const ADMIN: nat := 16

  /** The five flags, in declaration order. */
  const Flags: seq<nat> := [FOLLOW, COMMENT, WRITE, MODERATE, ADMIN]

  /** The flags are the distinct single bits 0 to 4. */
  lemma FlagsAreDistinctBits()
    ensures |Flags| == 5
    ensures forall i | 0 <= i < |Flags| :: Flags[i] == Pow2(i)
    ensures forall i, j | 0 <= i < j < |Flags| :: Flags[i] != Flags[j]
  {
    assert Pow2(0) == 1 && Pow2(1) == 2 && Pow2(2) == 4 && Pow2(3) == 8 && Pow2(4) == 16;
  }

  /** `has_permission`: every bit of perm is a bit of mask. */
  predicate Has(mask: nat, perm: nat)
  {
    BitAnd(mask, perm) == perm
  }

  /** The mask after `add_permission(perm)`: the source adds perm arithmetically
      unless it is already held. */
  function Added(mask: nat, perm: nat): nat
  {
    if Has(mask, perm) then mask else mask + perm
  }

  /** The mask after `remove_permission(perm)`: the source subtracts perm
      arithmetically when it is held. */
  function Removed(mask: nat, perm: nat): nat
  {
    if Has(mask, perm) then BitAndAtMost(mask, perm); mask - perm else mask
  }

  /** `has_permission` is bitwise containment, for any perm. */
  lemma {:induction false} HasIsContainment(mask: nat, perm: nat)
    ensures Has(mask, perm) ==> forall k: nat :: Bit(perm, k) ==> Bit(mask, k)
    ensures (forall k: nat :: Bit(perm, k) ==> Bit(mask, k)) ==> Has(mask, perm)
  {
    forall k: nat ensures Bit(BitAnd(mask, perm), k) == (Bit(mask, k) && Bit(perm, k)) {
      BitOfAnd(mask, perm, k);
    }
    if forall k: nat :: Bit(perm, k) ==> Bit(mask, k) {
      BitsDetermine(BitAnd(mask, perm), perm);
    } else {
      var k: nat :| Bit(perm, k) && !Bit(mask, k);
      assert !Bit(BitAnd(mask, perm), k);
    }
  }

  /** For a single flag, holding it is having its bit set. */
  lemma {:induction false} HasFlag(mask: nat, k: nat)
    ensures Has(mask, Pow2(k)) <==> Bit(mask, k)
  {
    HasIsContainment(mask, Pow2(k));
    BitOfPow2(k, k);
    forall j: nat ensures Bit(Pow2(k), j) == (j == k) {
      BitOfPow2(k, j);
    }
  }

  /** Adding a single flag: afterwards it is held, every other bit is as
      before, a flag already held leaves the mask unchanged, and otherwise the
      result is `mask | flag`. */
  lemma {:induction false} AddedFlag(mask: nat, k: nat)
    ensures forall j: nat :: Bit(Added(mask, Pow2(k)), j) == (j == k || Bit(mask, j))
    ensures Has(Added(mask, Pow2(k)), Pow2(k))
    ensures Has(mask, Pow2(k)) ==> Added(mask, Pow2(k)) == mask
    ensures Added(mask, Pow2(k)) == BitOr(mask, Pow2(k))
  {
    var p := Pow2(k);
    HasFlag(mask, k);
    forall j: nat ensures Bit(Added(mask, p), j) == (j == k || Bit(mask, j)) {
      if !Bit(mask, k) { BitOfAddPow2(mask, k, j); }
    }
    HasFlag(Added(mask, p), k);
    forall j: nat ensures Bit(Added(mask, p), j) == Bit(BitOr(mask, p), j) {
      BitOfOr(mask, p, j);
      BitOfPow2(k, j);
    }
    BitsDetermine(Added(mask, p), BitOr(mask, p));
  }

  /** Removing a single flag: afterwards it is not held, every other bit is as
      before, a flag not held leaves the mask unchanged, and otherwise the
      result is `mask & ~flag`. */
  lemma {:induction false} RemovedFlag(mask: nat, k: nat)
    ensures forall j: nat :: Bit(Removed(mask, Pow2(k)), j) == (j != k && Bit(mask, j))
    ensures !Has(Removed(mask, Pow2(k)), Pow2(k))
    ensures !Has(mask, Pow2(k)) ==> Removed(mask, Pow2(k)) == mask
    ensures Removed(mask, Pow2(k)) == BitAndNot(mask, Pow2(k))
  {
    var p := Pow2(k);
    HasFlag(mask, k);
    forall j: nat ensures Bit(Removed(mask, p), j) == (j != k && Bit(mask, j)) {
      if Bit(mask, k) { BitOfSubPow2(mask, k, j); }
    }
    HasFlag(Removed(mask, p), k);
    forall j: nat ensures Bit(Removed(mask, p), j) == Bit(BitAndNot(mask, p), j) {
      BitOfAndNot(mask, p, j);
      BitOfPow2(k, j);
    }
    BitsDetermine(Removed(mask, p), BitAndNot(mask, p));
  }

  /** Adding or removing a single flag twice is the same as doing it once. */
  lemma {:induction false} FlagUpdatesIdempotent(mask: nat, k: nat)
    ensures Added(Added(mask, Pow2(k)), Pow2(k)) == Added(mask, Pow2(k))
    ensures Removed(Removed(mask, Pow2(k)), Pow2(k)) == Removed(mask, Pow2(k))
  {
    AddedFlag(mask, k);
    AddedFlag(Added(mask, Pow2(k)), k);
    RemovedFlag(mask, k);
    RemovedFlag(Removed(mask, Pow2(k)), k);
  }

  /** Removing a flag that was just added restores a mask that lacked it. */
  lemma {:induction false} RemoveUndoesAdd(mask: nat, k: nat)
    requires !Has(mask, Pow2(k))
    ensures Removed(Added(mask, Pow2(k)), Pow2(k)) == mask
  {
    AddedFlag(mask, k);
    RemovedFlag(Added(mask, Pow2(k)), k);
    HasFlag(mask, k);
    forall j: nat ensures Bit(Removed(Added(mask, Pow2(k)), Pow2(k)), j) == Bit(mask, j) {
    }
    BitsDetermine(Removed(Added(mask, Pow2(k)), Pow2(k)), mask);
  }

  /** A zero mask (after `reset_permission`) holds no flag. */
  lemma {:induction false} ZeroHoldsNoFlag(k: nat)
    ensures !Has(0, Pow2(k))
  {
    HasFlag(0, k);
    BitOfZero(k);
  }

  /** The arithmetic `+=` is not `|` for a composite argument that overlaps the
      mask: adding FOLLOW|COMMENT to a FOLLOW-only mask yields WRITE. */
  lemma AddOverlappingComposite()
    ensures Added(FOLLOW, FOLLOW + COMMENT) == WRITE
    ensures !Has(Added(FOLLOW, FOLLOW + COMMENT), FOLLOW + COMMENT)
  {
    assert BitAnd(1, 3) == 2 * BitAnd(0, 1) + 1 == 1;
    assert BitAnd(2, 1) == 2 * BitAnd(1, 0) == 0;
    assert BitAnd(4, 3) == 2 * BitAnd(2, 1) == 0;
  }
}
