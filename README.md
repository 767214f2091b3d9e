# PAL shared memory and the MethodImpl slot table, modelled in Dafny

Two small parts of the CoreCLR runtime:

- **The PAL shared-memory interface** (`src/pal/src/include/pal/shmemory.h`).
  Several processes map one shared region. Inside it is a heap of blocks. Each
  block is named by an `SHMPTR` handle, a pointer-width integer that every
  process can use, and `0` means "no block" or failure. The region's header
  also holds an info table with one root handle per `SHM_INFO_ID`. A recursive
  lock serialises access to the region. Module `SharedMemory` (file
  `shared_memory.dfy`) models this as a class `Shm` with these fields:
  - the set of processes hooked into the system;
  - the info table, as an array indexed by enumerator value;
  - the live blocks and their bytes, as a map from handle to bytes;
  - the calling thread's lock count.

  Every entry point is a method on `Shm` whose contract says what it returns
  and what the new state is.
- **The MethodImpl slot table** (`src/vm/methodimpl.h`). A MethodImpl holds two
  self-relative pointers:
  - `pdwSlots` points to a DWORD array. Its first word is the slot count, and
    the slots follow in sorted order.
  - `pImplementedMD` points to the matching array of implemented MethodDescs.

  Module `RelativePointers` (`relative_pointers.dfy`) models 64-bit target
  addresses and how a relative pointer resolves against the address of its own
  field. Module `MethodImpls` (`method_impl.dfy`) models these parts:
  - the accessors, as functions of the MethodImpl's address, its fields and
    the target's memory (a map from byte address to DWORD);
  - the forward `Iterator`, as a class whose `cur` field is `m_iCur`.

  The ghost predicate `Stores` gives the layout the accessors decode: at the
  slot-storage address, memory holds the count followed by the slots.

`Wrappers` (`wrappers.dfy`) provides `Option`.

## Model

| member | source | states |
|---|---|---|
| SharedMemory.InfoIdOf | src/pal/src/include/pal/shmemory.h:41-46 | an element value names an info element exactly when it is 0 or 1, i.e. below SIID_LAST = 2, and then names the element with that enumerator value |
| SharedMemory.InfoIdsAreExactlyTwo | src/pal/src/include/pal/shmemory.h:41-46 | SIID_NAMED_OBJECTS and SIID_FILE_LOCKS are distinct, each enumerator value maps back to its element, and no other value is valid |
| SharedMemory.Shm.Initialize | src/pal/src/include/pal/shmemory.h:55-61 | if the backing store cannot be mapped, returns FALSE and leaves everything unchanged; otherwise registers the caller and returns TRUE; the first process starts with an empty heap and an all-NULL info table, and a later process leaves heap and table as they were |
| SharedMemory.Shm.Cleanup | src/pal/src/include/pal/shmemory.h:63-69 | the caller releases its lock holds and leaves the registered set; heap and table survive while another process remains and are removed once none remains |
| SharedMemory.Shm.Alloc | src/pal/src/include/pal/shmemory.h:71-83 | returns 0 and changes nothing, or returns a non-zero handle that no live block had, naming a new block of the requested size; every other block is unchanged |
| SharedMemory.Shm.Free | src/pal/src/include/pal/shmemory.h:85-95 | the freed block is no longer live and every other block is unchanged; freeing 0 changes nothing |
| SharedMemory.Shm.Lock | src/pal/src/include/pal/shmemory.h:97-107 | the lock count goes up by one and the new count is returned |
| SharedMemory.Shm.Release | src/pal/src/include/pal/shmemory.h:109-119 | on a held lock, the count goes down by one and the new count is returned |
| SharedMemory.NestedLocking | src/pal/src/include/pal/shmemory.h:97-119 | Lock, Lock, Release, Release by one thread return 1, 2, 1, 0 |
| SharedMemory.Shm.GetInfo | src/pal/src/include/pal/shmemory.h:122-137 | returns the value of the element; while no process is hooked in there is no region, so every element reads as NULL (a convention of the model, see Left out) |
| SharedMemory.Shm.SetInfo | src/pal/src/include/pal/shmemory.h:139-155 | returns TRUE exactly for a valid element; after TRUE, GetInfo of that element returns the stored value; the other element keeps its value |
| SharedMemory.HandOverRoot | src/pal/src/include/pal/shmemory.h:16-22 | a handle that one process stores in the info table is read back unchanged by another process after the first has left, and it still names a live block |
| SharedMemory.Shm.StrDup | src/pal/src/include/pal/shmemory.h:160-168 | returns NULL and changes nothing, or returns a fresh handle to a new block holding the string followed by its terminator, with every other block unchanged |
| SharedMemory.Shm.WStrDup | src/pal/src/include/pal/shmemory.h:170-178 | as StrDup, for a wide string; the new block holds the string's 16-bit units and terminator |
| SharedMemory.UpToNul | src/pal/src/include/pal/shmemory.h:160-178 | the string a NUL-terminated buffer holds: the longest prefix without a terminator, followed in the buffer by a terminator |
| SharedMemory.WideRoundTrip | src/pal/src/include/pal/shmemory.h:170-178 | reading back the bytes of a wide string gives the same 16-bit units |
| SharedMemory.CopiesReadBack | src/pal/src/include/pal/shmemory.h:160-178 | read up to its terminator, the copy that StrDup or WStrDup stores is the original string |
| RelativePointers.RelativePointer.GetValueMaybeNull | src/vm/methodimpl.h:104 | a zero distance reads as NULL; any other distance resolves to the same address as GetValue |
| RelativePointers.RelativePointer.GetValue | src/vm/methodimpl.h:74 | a non-NULL pointer resolves to the field's address plus the stored distance, modulo the address space |
| RelativePointers.ResolvesToTarget | src/vm/methodimpl.h:63 | a relative pointer made for a target, resolved against the address of its own field, gives that target back |
| RelativePointers.MovingTogetherKeepsEncoding | src/vm/methodimpl.h:27-28 | moving a field and its target by the same amount leaves the stored relative pointer unchanged |
| MethodImpls.FieldsResolveAgainstThemselves | src/vm/methodimpl.h:56-75 | both fields resolve against `this + offsetof(field)` to the targets they were written for |
| MethodImpls.GetImplementedMDs | src/vm/methodimpl.h:56-64 | NULL when its relative pointer is NULL; otherwise the pointer resolved against the address of its own field |
| MethodImpls.GetImplementedMDsNonNull | src/vm/methodimpl.h:66-75 | for a non-NULL field, gives the same address as GetImplementedMDs |
| MethodImpls.GetSlots | src/vm/methodimpl.h:94-110 | NULL when there is no slot table; otherwise exactly the storage address plus one DWORD, which is never the count's own address |
| MethodImpls.GetSize | src/vm/methodimpl.h:78-92 | 0 when there is no slot table; for a stored table, exactly the number of slots (corrected, see Findings) |
| MethodImpls.AccessorsDecodeStorage | src/vm/methodimpl.h:78-110 | for a table laid out as count then slots (line 27), GetSlots is non-NULL, GetSize is the number of slots, and the i-th DWORD from GetSlots is the i-th slot |
| MethodImpls.GetSizeAsWritten | src/vm/methodimpl.h:78-92 | as written, GetSize returns the first slot of a non-empty table, not the count |
| MethodImpls.GetSizeAsWrittenMiscounts | src/vm/methodimpl.h:86-91 | for a table holding slots 5 and 9, the written GetSize gives 5 and the corrected one gives 2; index 2 then passes the bound although its address is outside the table |
| MethodImpls.Iterator.constructor | src/vm/methodimpl.h:42 | the iterator starts at index 0 over the method's MethodImpl, or over none |
| MethodImpls.Iterator.IsValid | src/vm/methodimpl.h:43-44 | holds exactly when there is an impl and the index is below the number of slots (over the corrected GetSize, see Findings) |
| MethodImpls.Iterator.Next | src/vm/methodimpl.h:45-46 | increments the index by one when valid and otherwise does nothing, so the index never exceeds the size |
| MethodImpls.Iterator.GetSlot | src/vm/methodimpl.h:47-48 | requires a valid iterator and a current slot that fits in a WORD; returns that slot unchanged |
| MethodImpls.VisitSlots | src/vm/methodimpl.h:34-46 | a loop from index 0 visits every slot exactly once, in stored and therefore sorted order, and leaves the iterator invalid after GetSize() steps (over the corrected GetSize, see Findings) |

## Left out

- SHMPtrToPtr: the translation of a handle to a process-local address depends on where each process mapped the region. Handles stay opaque.
- Creating, mapping, unmapping and removing the backing store belong to the operating system. The mapping outcome is the `mapped` parameter of `Initialize`.
- The cross-process mutex behind SHMLock, thread and process identity, and blocking are left out. Only the calling thread's lock count is modelled. Mutual exclusion between processes is not.
- SharedMemory.Shm.Alloc: the heap's free list, first-fit search, splitting and coalescing are not part of this model. Whether an allocation succeeds is a nondeterministic choice, and a new block's bytes are unspecified.
- SharedMemory.Shm.Release: releasing a lock the thread does not hold is a caller error, and is excluded by the precondition.
- SharedMemory.Shm.GetInfo: an element value outside the enumeration is a caller error, and is excluded by the precondition.
- SharedMemory.Shm.GetInfo: the header promises nothing for a call made before SHMInitialize. That every element reads as NULL while no process is hooked in comes from the model's own convention that no region exists then, not from the source.
- SharedMemory.Shm.Alloc, SetInfo, StrDup, WStrDup need at least one process hooked in, because without one there is no region. The lock is not required: the header asks callers to hold it by convention, and nothing enforces it.
- SharedMemory.Shm.WStrDup: wide characters are stored low byte first, as on the little-endian targets. No other text encoding is modelled.
- A process that exits without SHMCleanup leaves a stale registration. This is not modelled.
- The RelativePointer class itself (fixuppointer.h) is not part of this model. Its resolution is modelled from how methodimpl.h uses it: a zero distance is NULL, and otherwise the value is the field's own address plus the distance. The model assumes a 64-bit target, so the second field is at offset 8.
- MethodImpl::Iterator::GetMethodDesc, FindMethodDesc, FindSlotIndex and RestoreSlot are left out because their bodies are not part of this model. For the same reason `m_pMD` is not modelled.
- SetSize and SetData are left out. They allocate through the loader heap or fill the arrays, and are not part of this model. The iterator therefore takes the sorted, count-prefixed layout as given.
- DAC-only code, the FEATURE_PREJIT Save/Fixup and the CONTRACTL annotations are left out.

## Findings

| source | as written | input that shows it | evidently intended | confidence | as-written member | corrected member |
|---|---|---|---|---|---|---|
| src/vm/methodimpl.h:86-91 | GetSize returns `*GetSlots()`. GetSlots already points one DWORD past the count prefix, so this is the first slot, not the count | slot table `[2, 5, 9]` (count 2, slots 5 and 9): GetSize returns 5, so IsValid accepts index 2..4 and GetSlot reads past the table; for an empty table it reads the word after the table | return the count prefix `*pSlots` of the storage, as line 27 describes | high (not executed) | MethodImpls.GetSizeAsWritten, MethodImpls.GetSizeAsWrittenMiscounts | MethodImpls.GetSize, MethodImpls.AccessorsDecodeStorage |
