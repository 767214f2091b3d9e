/**
 * The PAL shared-memory interface: a region that every participating
 * process maps, holding a heap of blocks named by SHMPTR handles, a small
 * info table of root handles, and a recursive lock serialising access.
 *
 * The class below is the state one calling thread sees: the processes
 * hooked into the system, the info table of the region's header, the live
 * blocks with their bytes, and the thread's own lock count.
 */
module SharedMemory {
  import opened Wrappers

  const ShmPtrLimit: int := 0x1_0000_0000_0000_0000

  /**
   * SHMPTR, a pointer-width unsigned integer usable in every process. It is
   * a handle, not an address: only SHMPtrToPtr turns it into one.
   */
  newtype ShmPtr = x: int | 0 <= x < ShmPtrLimit

  /** The handle that means "no block" and that allocation returns on failure. */
  const NullShmPtr: ShmPtr := 0

  /** A byte of a narrow (char) string or of a block. */
  newtype Byte = x: int | 0 <= x < 0x100

  /** A 16-bit unit of a wide (WCHAR) string. */
  newtype WChar = x: int | 0 <= x < 0x1_0000

  type ProcessId = nat

  /** SHM_INFO_ID: the elements of the header's info table. */
  datatype InfoId = NamedObjects | FileLocks

  /** SIID_LAST: the number of info elements. */
  const InfoIdCount: int := 2

  /** The enumerator value of an info element. */
  function Ordinal(id: InfoId): (n: int)
    ensures 0 <= n < InfoIdCount
  {
    match id
    case NamedObjects => 0
    case FileLocks => 1
  }

  /** The info element an enumerator value names, if any. */
  function InfoIdOf(element: int): (r: Option<InfoId>)
    ensures r.Some? <==> 0 <= element < InfoIdCount
    ensures r.Some? ==> Ordinal(r.value) == element
  {
    if element == 0 then Some(NamedObjects)
    else if element == 1 then Some(FileLocks)
    else None
  }

  /** Exactly two elements exist, each named by its own enumerator value. */
  lemma InfoIdsAreExactlyTwo()
    ensures forall id :: InfoIdOf(Ordinal(id)) == Some(id)
    ensures forall a, b :: Ordinal(a) == Ordinal(b) ==> a == b
    ensures forall e :: InfoIdOf(e).Some? <==> e == Ordinal(NamedObjects) || e == Ordinal(FileLocks)
  {
  }

  /** The part of a NUL-terminated string before its first terminator. */
  function UpToNul<T(==)>(s: seq<T>, nul: T): (r: seq<T>)
    ensures r <= s && nul !in r
    ensures |r| < |s| ==> s[|r|] == nul
  {
    if s == [] || s[0] == nul then [] else [s[0]] + UpToNul(s[1..], nul)
  }

  /** A wide string's units as bytes, low byte first. */
  function WideBytes(s: seq<WChar>): (b: seq<Byte>)
    ensures |b| == 2 * |s|
  {
    if s == [] then []
    else [(s[0] % 0x100) as int as Byte, (s[0] / 0x100) as int as Byte] + WideBytes(s[1..])
  }

  /** Bytes read back as wide units, low byte first. */
  function WideUnits(b: seq<Byte>): (s: seq<WChar>)
    requires |b| % 2 == 0
    ensures |s| == |b| / 2
  {
    if b == [] then [] else [(b[0] as int + 0x100 * b[1] as int) as WChar] + WideUnits(b[2..])
  }

  /** Reading the bytes of a wide string back gives the same units. */
  lemma {:induction false} WideRoundTrip(s: seq<WChar>)
    ensures WideUnits(WideBytes(s)) == s
  {
    if s != [] {
      WideRoundTrip(s[1..]);
      assert WideBytes(s)[2..] == WideBytes(s[1..]);
    }
  }

  /**
   * The copies the string helpers store read back, up to their terminator,
   * as the strings they were made from.
   */
  lemma CopiesReadBack(narrow: seq<Byte>, wide: seq<WChar>)
    requires 0 !in narrow && 0 !in wide
    ensures UpToNul(narrow + [0], 0) == narrow
    ensures UpToNul(WideUnits(WideBytes(wide + [0])), 0) == wide
  {
    WideRoundTrip(wide + [0]);
    TerminatedReadsBack(narrow, 0);
    TerminatedReadsBack(wide, 0);
  }

  /** A string without a terminator, terminated, reads back as itself. */
  lemma {:induction false} TerminatedReadsBack<T>(s: seq<T>, nul: T)
    requires nul !in s
    ensures UpToNul(s + [nul], nul) == s
  {
    if s != [] {
      assert (s + [nul])[1..] == s[1..] + [nul];
      TerminatedReadsBack(s[1..], nul);
    }
  }

  class Shm {
    /** The processes hooked into the shared memory system. */
    var processes: set<ProcessId>
    /** The header's info table, indexed by enumerator value. */
    var info: array<ShmPtr>
    /** The live blocks and their bytes, by handle. */
    var blocks: map<ShmPtr, seq<Byte>>
    /** How many times the calling thread holds the lock. */
    var lockCount: nat

    /**
     * The table has one entry per info element, no block is named by the
     * failure handle, and while no process is hooked in there is no region:
     * no blocks and an all-NULL table.
     */
    ghost predicate Valid()
      reads this, info
    {
      && info.Length == InfoIdCount
      && NullShmPtr !in blocks
      && (processes == {} ==>
            blocks == map[] && forall i :: 0 <= i < info.Length ==> info[i] == NullShmPtr)
    }

    /** No process hooked in, no region, lock not held. */
    constructor ()
      ensures Valid() && fresh(info)
      ensures processes == {} && blocks == map[] && lockCount == 0
    {
      processes := {};
      info := new ShmPtr[InfoIdCount](_ => NullShmPtr);
      blocks := map[];
      lockCount := 0;
    }

    /**
     * SHMInitialize: hooks process `pid` in. `mapped` is whether the
     * operating system could create or map the backing store. The first
     * process in initialises the region; later ones only join.
     */
    method Initialize(pid: ProcessId, mapped: bool) returns (ok: bool)
      requires Valid()
      modifies this`processes, this`blocks, info
      ensures Valid()
      ensures ok == mapped
      ensures !ok ==> processes == old(processes) && blocks == old(blocks) && info[..] == old(info[..])
      ensures ok ==> processes == old(processes) + {pid}
      ensures ok && old(processes) == {} ==>
                blocks == map[] && forall i :: 0 <= i < InfoIdCount ==> info[i] == NullShmPtr
      ensures old(processes) != {} ==> blocks == old(blocks) && info[..] == old(info[..])
    {
      if !mapped {
        return false;
      }
      if processes == {} {
        blocks := map[];
        info[0], info[1] := NullShmPtr, NullShmPtr;
      }
      processes := processes + {pid};
      ok := true;
    }

    /**
     * SHMCleanup: process `pid` releases what it holds and leaves; the
     * region is removed only when no process remains.
     */
    method Cleanup(pid: ProcessId)
      requires Valid()
      modifies this`processes, this`blocks, this`lockCount, info
      ensures Valid()
      ensures lockCount == 0
      ensures processes == old(processes) - {pid}
      ensures processes != {} ==> blocks == old(blocks) && info[..] == old(info[..])
      ensures processes == {} ==>
                blocks == map[] && forall i :: 0 <= i < InfoIdCount ==> info[i] == NullShmPtr
    {
      lockCount := 0;
      processes := processes - {pid};
      if processes == {} {
        blocks := map[];
        info[0], info[1] := NullShmPtr, NullShmPtr;
      }
    }

    /**
     * SHMalloc: either fails, returning the NULL handle and changing
     * nothing, or returns a non-NULL handle no live block has, naming a new
     * block of `size` bytes. Other blocks are untouched.
     */
    method Alloc(size: nat) returns (p: ShmPtr)
      requires Valid() && processes != {}
      modifies this`blocks
      ensures Valid()
      ensures p == NullShmPtr ==> blocks == old(blocks)
      ensures p != NullShmPtr ==>
                p !in old(blocks) && p in blocks && |blocks[p]| == size
                && blocks - {p} == old(blocks)
    {
      // Whether the heap has a free block large enough: its free list is
      // not part of this model, so either outcome is possible.
      var room: bool := *;
      if room && exists q: ShmPtr :: q != NullShmPtr && q !in blocks {
        p :| p != NullShmPtr && p !in blocks;
        assert |seq(size, _ => 0 as Byte)| == size;
        var contents: seq<Byte> :| |contents| == size;
        blocks := blocks[p := contents];
      } else {
        p := NullShmPtr;
      }
    }

    /** SHMfree: the block is no longer live; no other block changes. Freeing NULL does nothing. */
    method Free(p: ShmPtr)
      requires Valid()
      requires p == NullShmPtr || p in blocks
      modifies this`blocks
      ensures Valid()
      ensures p !in blocks && blocks == old(blocks) - {p}
      ensures p == NullShmPtr ==> blocks == old(blocks)
    {
      blocks := blocks - {p};
    }

    /** SHMLock: takes the lock once more and returns the new count. */
    method Lock() returns (count: int)
      requires Valid()
      modifies this`lockCount
      ensures Valid()
      ensures lockCount == old(lockCount) + 1 && count == lockCount
    {
      lockCount := lockCount + 1;
      count := lockCount;
    }

    /** SHMRelease: gives back one hold of the lock and returns the new count. */
    method Release() returns (count: int)
      requires Valid() && lockCount > 0
      modifies this`lockCount
      ensures Valid()
      ensures lockCount == old(lockCount) - 1 && count == lockCount
    {
      lockCount := lockCount - 1;
      count := lockCount;
    }

    /** SHMGetInfo: the value of an info element; every element is NULL while there is no region. */
    function GetInfo(element: int): (value: ShmPtr)
      reads this, info
      requires Valid() && 0 <= element < InfoIdCount
      ensures processes == {} ==> value == NullShmPtr
    {
      info[element]
    }

    /**
     * SHMSetInfo: stores `value` in an info element, reporting TRUE exactly
     * when `element` names one; the other element keeps its value.
     */
    method SetInfo(element: int, value: ShmPtr) returns (ok: bool)
      requires Valid() && processes != {}
      modifies info
      ensures Valid()
      ensures ok <==> 0 <= element < InfoIdCount
      ensures ok ==> GetInfo(element) == value
      ensures forall i :: 0 <= i < InfoIdCount && i != element ==> info[i] == old(info[i])
    {
      match InfoIdOf(element)
      case Some(id) =>
        info[Ordinal(id)] := value;
        ok := true;
      case None =>
        ok := false;
    }

    /**
     * SHMStrDup: copies a narrow string, with its terminator, into a new
     * block, or returns NULL, changing nothing, when allocation fails.
     */
    method StrDup(s: seq<Byte>) returns (p: ShmPtr)
      requires Valid() && processes != {}
      requires 0 !in s
      modifies this`blocks
      ensures Valid()
      ensures p == NullShmPtr ==> blocks == old(blocks)
      ensures p != NullShmPtr ==> p !in old(blocks) && blocks == old(blocks)[p := s + [0]]
    {
      p := Alloc(|s| + 1);
      if p != NullShmPtr {
        blocks := blocks[p := s + [0]];
      }
    }

    /**
     * SHMWStrDup: copies a wide string, with its terminator, into a new
     * block, or returns NULL, changing nothing, when allocation fails.
     */
    method WStrDup(s: seq<WChar>) returns (p: ShmPtr)
      requires Valid() && processes != {}
      requires 0 !in s
      modifies this`blocks
      ensures Valid()
      ensures p == NullShmPtr ==> blocks == old(blocks)
      ensures p != NullShmPtr ==> p !in old(blocks) && blocks == old(blocks)[p := WideBytes(s + [0])]
    {
      p := Alloc(2 * (|s| + 1));
      if p != NullShmPtr {
        blocks := blocks[p := WideBytes(s + [0])];
      }
    }
  }

  /** Nested locking by one thread: the counts returned are 1, 2, 1, 0. */
  method NestedLocking(shm: Shm) returns (counts: seq<int>)
    requires shm.Valid() && shm.lockCount == 0
    modifies shm
    ensures shm.Valid() && shm.lockCount == 0
    ensures counts == [1, 2, 1, 0]
  {
    var a := shm.Lock();
    var b := shm.Lock();
    var c := shm.Release();
    var d := shm.Release();
    counts := [a, b, c, d];
  }

  /**
   * Process `p` creates the region, allocates a root block and publishes it
   * as the named-objects root, then leaves while `q` is hooked in; `q` reads
   * the same handle back.
   */
  method HandOverRoot(shm: Shm, p: ProcessId, q: ProcessId) returns (stored: ShmPtr, seen: ShmPtr)
    requires shm.Valid() && shm.processes == {} && p != q
    modifies shm, shm.info
    ensures shm.Valid() && shm.processes == {q}
    ensures stored != NullShmPtr ==> seen == stored && stored in shm.blocks
  {
    var _ := shm.Initialize(p, true);
    stored := shm.Alloc(16);
    var _ := shm.SetInfo(Ordinal(NamedObjects), stored);
    var _ := shm.Initialize(q, true);
    shm.Cleanup(p);
    seen := shm.GetInfo(Ordinal(NamedObjects));
  }
}
