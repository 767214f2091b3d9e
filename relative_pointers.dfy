/**
 * Target addresses (TADDR) of a 64-bit process and the self-relative
 * pointers that MethodImpl stores in place of absolute ones.
 *
 * A relative pointer holds the distance `delta` from the address of the
 * field it lives in to its target; a delta of zero encodes NULL. Resolving it
 * adds the field's own address back, with pointer-width wrap-around.
 */
module RelativePointers {

  /** One past the largest 64-bit target address. */
  const AddrLimit: int := 0x1_0000_0000_0000_0000

  /** A target address (TADDR), an unsigned pointer-width integer. */
  newtype Addr = x: int | 0 <= x < AddrLimit

  const NullAddr: Addr := 0

  /** Address arithmetic: `a + bytes`, wrapping around like unsigned TADDR arithmetic. */
  function AddrAdd(a: Addr, bytes: int): (r: Addr)
    ensures 0 <= a as int + bytes < AddrLimit ==> r as int == a as int + bytes
    ensures (r as int - a as int - bytes) % AddrLimit == 0
  {
    ((a as int + bytes) % AddrLimit) as Addr
  }

  /** A self-relative pointer: the distance from its own field to its target. */
  datatype RelativePointer = RelativePointer(delta: Addr) {

    predicate IsNull() { delta == 0 }

    /**
     * The target, when the pointer is known not to be NULL; `base` is the
     * address of the field that holds this pointer.
     */
    function GetValue(base: Addr): (a: Addr)
      requires !IsNull()
      ensures (a as int - base as int - delta as int) % AddrLimit == 0
    {
      AddrAdd(base, delta as int)
    }

    /** The target, or NULL when the stored distance is zero. */
    function GetValueMaybeNull(base: Addr): (a: Addr)
      ensures IsNull() ==> a == NullAddr
      ensures !IsNull() ==> a == GetValue(base)
    {
      if delta == 0 then NullAddr else AddrAdd(base, delta as int)
    }
  }

  /**
   * The relative pointer that a field at address `base` stores so as to
   * designate `target` (NULL is stored as a zero distance).
   */
  function Targeting(base: Addr, target: Addr): (r: RelativePointer)
    ensures target == NullAddr ==> r.IsNull()
    ensures target != NullAddr && target != base ==> !r.IsNull()
  {
    if target == NullAddr then RelativePointer(0)
    else RelativePointer(((target as int - base as int) % AddrLimit) as Addr)
  }

  /**
   * Resolving against the field's own address gives back exactly the target
   * the pointer was made for. A field cannot designate itself: that distance
   * is zero, which reads as NULL.
   */
  lemma ResolvesToTarget(base: Addr, target: Addr)
    requires target != base
    ensures Targeting(base, target).GetValueMaybeNull(base) == target
  {
  }

  /**
   * Position independence: moving a field and its target by the same amount
   * leaves the stored relative pointer unchanged, so a structure can be
   * mapped at any base address.
   */
  lemma MovingTogetherKeepsEncoding(base: Addr, target: Addr, shift: int)
    requires target != NullAddr && AddrAdd(target, shift) != NullAddr
    ensures Targeting(AddrAdd(base, shift), AddrAdd(target, shift)) == Targeting(base, target)
  {
  }
}
