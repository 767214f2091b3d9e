/**
 * The slot table of a MethodImpl: the list of virtual slots a method
 * overrides through explicit method implementations, and the forward
 * iterator over it.
 *
 * A MethodImpl lives at some address `this` and holds two self-relative
 * pointers. `pdwSlots` designates a DWORD array whose first word is the
 * number of slots and whose remaining words are the slots, kept in sorted
 * order; `pImplementedMD` designates the parallel array of implemented
 * MethodDescs. Either pointer may be NULL.
 */
module MethodImpls {
  import opened Wrappers
  import opened RelativePointers

  const DWordLimit: int := 0x1_0000_0000
  /** An unsigned 32-bit DWORD. */
  newtype DWord = x: int | 0 <= x < DWordLimit

  const WordLimit: int := 0x1_0000
  /** An unsigned 16-bit WORD. */
  newtype Word = x: int | 0 <= x < WordLimit

  /** sizeof(DWORD) in bytes. */
  const DWordSize: int := 4

  /** offsetof(MethodImpl, pdwSlots) on a 64-bit target. */
  const SlotsFieldOffset: int := 0

  /** offsetof(MethodImpl, pImplementedMD): one pointer-sized field further on. */
  const ImplementedMDFieldOffset: int := 8

  /** The DWORDs of the target's memory that are mapped, by byte address. */
  type Memory = map<Addr, DWord>

  /** The fields of a MethodImpl. */
  datatype MethodImpl = MethodImpl(pdwSlots: RelativePointer, pImplementedMD: RelativePointer)

  /** A MethodImpl together with its own address, against which its fields resolve. */
  datatype Placed = Placed(at: Addr, impl: MethodImpl)

  /** The address of the k-th DWORD of an array starting at `a`. */
  function WordAddr(a: Addr, k: int): Addr
  {
    AddrAdd(a, DWordSize * k)
  }

  /** Address of the `pdwSlots` field (`this + offsetof(MethodImpl, pdwSlots)`). */
  function SlotsField(p: Placed): Addr
  {
    AddrAdd(p.at, SlotsFieldOffset)
  }

  /** Address of the `pImplementedMD` field. */
  function ImplementedMDField(p: Placed): Addr
  {
    AddrAdd(p.at, ImplementedMDFieldOffset)
  }

  /** The count-prefixed slot storage `pdwSlots` designates, or NULL. */
  function SlotStorage(p: Placed): Addr
  {
    p.impl.pdwSlots.GetValueMaybeNull(SlotsField(p))
  }

  /** Slots are kept in ascending order. */
  ghost predicate Sorted(slots: seq<DWord>)
  {
    forall i, j :: 0 <= i < j < |slots| ==> slots[i] <= slots[j]
  }

  /**
   * The layout of a present slot table: memory at the storage address holds
   * the count, then the slots in order, ending below the top of the
   * address space.
   */
  ghost predicate Stores(p: Placed, mem: Memory, slots: seq<DWord>)
  {
    var s := SlotStorage(p);
    && s != NullAddr
    && s as int + DWordSize * (|slots| + 1) < AddrLimit
    && s in mem && mem[s] as int == |slots|
    && forall k :: 1 <= k <= |slots| ==> WordAddr(s, k) in mem && mem[WordAddr(s, k)] == slots[k - 1]
  }

  /**
   * Resolving either field of a MethodImpl against its own address gives the
   * target the field was written for.
   */
  lemma FieldsResolveAgainstThemselves(p: Placed, slotsTarget: Addr, mdsTarget: Addr)
    requires slotsTarget != SlotsField(p) && p.impl.pdwSlots == Targeting(SlotsField(p), slotsTarget)
    requires mdsTarget != ImplementedMDField(p) && p.impl.pImplementedMD == Targeting(ImplementedMDField(p), mdsTarget)
    ensures SlotStorage(p) == slotsTarget
    ensures GetImplementedMDs(p) == mdsTarget
  {
    ResolvesToTarget(SlotsField(p), slotsTarget);
    ResolvesToTarget(ImplementedMDField(p), mdsTarget);
  }

  /** The implemented-MethodDesc array, which may be NULL. */
  function GetImplementedMDs(p: Placed): (a: Addr)
    ensures p.impl.pImplementedMD.IsNull() ==> a == NullAddr
    ensures !p.impl.pImplementedMD.IsNull() ==> a == p.impl.pImplementedMD.GetValue(ImplementedMDField(p))
  {
    p.impl.pImplementedMD.GetValueMaybeNull(ImplementedMDField(p))
  }

  /** The implemented-MethodDesc array, for a caller that knows it is present. */
  function GetImplementedMDsNonNull(p: Placed): (a: Addr)
    requires !p.impl.pImplementedMD.IsNull()
    ensures a == GetImplementedMDs(p)
  {
    p.impl.pImplementedMD.GetValue(ImplementedMDField(p))
  }

  /**
   * The visible slots: NULL when there is no slot table, otherwise the
   * storage one DWORD past the count, so the count itself is never a slot.
   */
  function GetSlots(p: Placed): (a: Addr)
    ensures SlotStorage(p) == NullAddr ==> a == NullAddr
    ensures SlotStorage(p) != NullAddr ==> a == WordAddr(SlotStorage(p), 1)
    ensures a != NullAddr ==> a != SlotStorage(p)
  {
    var s := SlotStorage(p);
    if s == NullAddr then NullAddr else AddrAdd(s, DWordSize)
  }

  /** The number of slots: the count prefix, or 0 when there is no slot table. */
  function GetSize(p: Placed, mem: Memory): (n: DWord)
    requires SlotStorage(p) == NullAddr || SlotStorage(p) in mem
    ensures SlotStorage(p) == NullAddr ==> n == 0
    ensures forall slots :: Stores(p, mem, slots) ==> n as int == |slots|
  {
    var s := SlotStorage(p);
    if s == NullAddr then 0 else mem[s]
  }

  /**
   * Reading the visible slots of a stored table gives the slots in order,
   * and GetSize counts exactly them.
   */
  lemma AccessorsDecodeStorage(p: Placed, mem: Memory, slots: seq<DWord>)
    requires Stores(p, mem, slots)
    ensures GetSlots(p) != NullAddr && GetSize(p, mem) as int == |slots|
    ensures forall i :: 0 <= i < |slots| ==> WordAddr(GetSlots(p), i) in mem && mem[WordAddr(GetSlots(p), i)] == slots[i]
  {
    var s := SlotStorage(p);
    var a := GetSlots(p);
    assert a as int == s as int + DWordSize;
    forall i | 0 <= i < |slots|
      ensures WordAddr(a, i) in mem && mem[WordAddr(a, i)] == slots[i]
    {
      assert WordAddr(a, i) == WordAddr(s, i + 1);
    }
  }

  /**
   * GetSize as methodimpl.h writes it: it dereferences GetSlots(), which
   * already points one DWORD past the count.
   */
  function GetSizeAsWritten(p: Placed, mem: Memory): (n: DWord)
    requires GetSlots(p) == NullAddr || GetSlots(p) in mem
    ensures SlotStorage(p) == NullAddr ==> n == 0
    ensures forall slots :: Stores(p, mem, slots) && |slots| > 0 ==> n == slots[0]
  {
    var s := GetSlots(p);
    if s == NullAddr then 0 else mem[s]
  }

  /** A MethodImpl at 0x1000 whose slot table at 0x2000 holds slots 5 and 9. */
  function ExampleImpl(): Placed
  {
    Placed(0x1000, MethodImpl(RelativePointer(0x1000), RelativePointer(0)))
  }

  function ExampleMemory(): Memory
  {
    map[0x2000 := 2, 0x2004 := 5, 0x2008 := 9]
  }

  /**
   * On a two-slot table, the written GetSize reports 5 (the first slot)
   * instead of 2, so an iterator trusting it would accept index 2 and read
   * the word after the table, which is not part of it.
   */
  lemma GetSizeAsWrittenMiscounts()
    ensures Stores(ExampleImpl(), ExampleMemory(), [5, 9])
    ensures GetSize(ExampleImpl(), ExampleMemory()) == 2
    ensures GetSizeAsWritten(ExampleImpl(), ExampleMemory()) == 5
    ensures 2 < GetSizeAsWritten(ExampleImpl(), ExampleMemory())
    ensures WordAddr(GetSlots(ExampleImpl()), 2) !in ExampleMemory()
  {
    var p, mem := ExampleImpl(), ExampleMemory();
    assert SlotStorage(p) == 0x2000;
    assert WordAddr(0x2000, 1) == 0x2004 && WordAddr(0x2000, 2) == 0x2008;
    assert Stores(p, mem, [5, 9]);
  }

  /** `MethodImpl::Iterator`: a cursor over the slots of one MethodImpl. */
  class Iterator {
    /** m_pImpl: the MethodImpl of the method, or NULL when it has none. */
    const pImpl: Option<Placed>
    /** The memory the slot table is read from. */
    const mem: Memory
    /** The slots the table holds, in stored order. */
    ghost const slots: seq<DWord>
    /** m_iCur: the index of the current slot. */
    var cur: DWord

    ghost predicate Valid()
      reads this
    {
      && (pImpl.None? ==> slots == [])
      && (pImpl.Some? ==>
            (SlotStorage(pImpl.value) == NullAddr && slots == [])
            || (Stores(pImpl.value, mem, slots) && Sorted(slots)))
      && cur as int <= |slots|
    }

    /** Starts at the first slot. */
    constructor (pImpl: Option<Placed>, mem: Memory, ghost slots: seq<DWord>)
      requires pImpl.None? ==> slots == []
      requires pImpl.Some? ==>
                 (SlotStorage(pImpl.value) == NullAddr && slots == [])
                 || (Stores(pImpl.value, mem, slots) && Sorted(slots))
      ensures Valid()
      ensures this.pImpl == pImpl && this.mem == mem && this.slots == slots && cur == 0
    {
      this.pImpl := pImpl;
      this.mem := mem;
      this.slots := slots;
      cur := 0;
    }

    /** There is an impl and the cursor is on one of its slots. */
    predicate IsValid()
      reads this
      requires Valid()
      ensures IsValid() <==> pImpl.Some? && cur as int < |slots|
    {
      pImpl.Some? && cur < GetSize(pImpl.value, mem)
    }

    /** Moves to the next slot; does nothing once the iterator is exhausted. */
    method Next()
      requires Valid()
      modifies this
      ensures Valid()
      ensures cur == if old(IsValid()) then old(cur) + 1 else old(cur)
    {
      if IsValid() {
        cur := cur + 1;
      }
    }

    /** The current slot, which must fit in a WORD. */
    function GetSlot(): (w: Word)
      reads this
      requires Valid() && IsValid()
      requires slots[cur] as int < WordLimit
      ensures w as int == slots[cur] as int
    {
      AccessorsDecodeStorage(pImpl.value, mem, slots);
      mem[WordAddr(GetSlots(pImpl.value), cur as int)] as int as Word
    }
  }

  /**
   * The loop callers write over an iterator: starting at the first slot, it
   * visits every slot exactly once, in stored order, and the iterator is
   * exhausted after GetSize() steps.
   */
  method VisitSlots(it: Iterator) returns (visited: seq<Word>, steps: nat)
    requires it.Valid() && it.cur == 0
    requires forall k :: 0 <= k < |it.slots| ==> it.slots[k] as int < WordLimit
    modifies it
    ensures it.Valid() && !it.IsValid()
    ensures steps == |it.slots| && it.cur as int == steps
    ensures |visited| == |it.slots|
    ensures forall k :: 0 <= k < |visited| ==> visited[k] as int == it.slots[k] as int
    ensures forall i, j :: 0 <= i < j < |visited| ==> visited[i] <= visited[j]
  {
    visited, steps := [], 0;
    while it.IsValid()
      invariant it.Valid()
      invariant steps == it.cur as int == |visited|
      invariant forall k :: 0 <= k < |visited| ==> visited[k] as int == it.slots[k] as int
      decreases |it.slots| - it.cur as int
    {
      visited := visited + [it.GetSlot()];
      it.Next();
      steps := steps + 1;
    }
  }
}
