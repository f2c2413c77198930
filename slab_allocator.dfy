/**
 * The slab allocator's records and procedures, updating state in place as
 * the C code does.  Every procedure is proved to follow its counterpart in
 * SlabSpec; the properties proved there carry over.
 *
 * The slab list (slab_head, next, prev, slab_tail) is the sequence `slabs`
 * in list order; slab and chunk records are objects whose pool space is
 * still taken by bumping first_free_byte exactly as malloc_bytes does.
 */
module SlabAllocator {
  import opened Wrappers
  import opened SizeClasses
  import opened SlabSpec

  /** A byte of the memory pool. */
  newtype byte = x: int | 0 <= x < 256

  /** The largest value of a C `int`, the type of TN and of the slab counters. */
  const IntMax: nat := 0x7fff_ffff

  /** 2^60, the largest pool init_slab_allocator will request. */
  const ExaByte: nat := 0x1000_0000_0000_0000

  /** The chunk arrays of a list of slabs. */
  ghost function ChunkArrays(s: seq<Slab>): set<array<Chunk>>
    reads s
  {
    set k | 0 <= k < |s| :: s[k].chunks
  }

  /** What each slab of a list holds, in list order. */
  ghost function Views(s: seq<Slab>): (r: seq<SlabView>)
    reads s, ChunkArrays(s)
    ensures |r| == |s| && forall k :: 0 <= k < |s| ==> r[k] == s[k].View()
  {
    if s == [] then []
    else
      assert ChunkArrays(s[..|s| - 1]) <= ChunkArrays(s);
      Views(s[..|s| - 1]) + [s[|s| - 1].View()]
  }

  /** struct slab. */
  class Slab {
    var chunkSize: nat
    var numChunks: nat
    var hasSpace: bool
    var chunks: array<Chunk>

    ghost predicate Valid()
      reads this
    {
      chunks.Length == numChunks
    }

    ghost function View(): SlabView
      reads this, chunks
    {
      SlabView(chunkSize, hasSpace, chunks[..])
    }

    /** A slab record whose chunk array is yet to be filled by create_chunks. */
    constructor (chunkSize: nat, numChunks: nat)
      ensures Valid() && fresh(chunks)
      ensures this.chunkSize == chunkSize && this.numChunks == numChunks && hasSpace
    {
      this.chunkSize := chunkSize;
      this.numChunks := numChunks;
      chunks := new Chunk[numChunks](_ => Chunk(false, 0));
      hasSpace := true;
    }

    /** pick_chunk: the loop over the chunk array, proved to follow SlabSpec.PickChunk. */
    method PickChunk() returns (picked: Option<nat>)
      requires Valid()
      modifies this, chunks
      ensures Valid() && chunks == old(chunks)
      ensures chunkSize == old(chunkSize) && numChunks == old(numChunks)
      ensures (View(), picked) == SlabSpec.PickChunk(old(View()))
    {
      picked := None;
      var i := 0;
      while i < numChunks
        invariant 0 <= i <= numChunks
        invariant View() == old(View())
        invariant FirstUnusedFrom(chunks[..], 0) == FirstUnusedFrom(chunks[..], i)
      {
        if !chunks[i].isUsed {
          chunks[i] := chunks[i].(isUsed := true);
          if i == numChunks - 1 {
            hasSpace := false;
          }
          picked := Some(i);
          break;
        }
        i := i + 1;
      }
    }

    /** remove_if_belong_here: the loop over the chunk array, proved to follow its spec. */
    method RemoveIfBelongHere(ptr: int) returns (found: int)
      requires Valid()
      modifies chunks
      ensures (View(), found) == SlabSpec.RemoveIfBelongHere(old(View()), ptr)
    {
      found := -1;
      var i := 0;
      while i < numChunks
        invariant 0 <= i <= numChunks
        invariant View() == old(View())
        invariant FindUsedFrom(chunks[..], ptr, 0) == FindUsedFrom(chunks[..], ptr, i)
      {
        if chunks[i].data == ptr && chunks[i].isUsed {
          chunks[i] := chunks[i].(isUsed := false);
          found := 0;
          break;
        }
        i := i + 1;
      }
    }
  }

  /** struct slab_allocator, with the pool it owns. */
  class Allocator {
    var availSlabs: nat
    var possibleSlabs: nat
    var pool: array<byte>
    var poolSize: nat
    var firstFreeByte: nat
    var slabs: seq<Slab>
    ghost var Repr: set<object>

    /**
     * The records are distinct objects owned by the allocator and the pool
     * is pool_size bytes.
     */
    ghost predicate Valid()
      reads this, Repr
    {
      this in Repr && pool in Repr && pool.Length == poolSize &&
      (forall k :: 0 <= k < |slabs| ==> slabs[k] in Repr && slabs[k].chunks in Repr && slabs[k].Valid()) &&
      (forall k1, k2 :: 0 <= k1 < k2 < |slabs| ==> slabs[k1] != slabs[k2] && slabs[k1].chunks != slabs[k2].chunks)
    }

    /** An allocator init_slab_allocator set up: Valid and the allocator invariant. */
    ghost predicate Ready()
      reads this, Repr
    {
      Valid() && ArenaInv(View())
    }

    ghost function View(): ArenaView
      reads this, slabs, ChunkArrays(slabs)
    {
      ArenaView(availSlabs, possibleSlabs, poolSize, firstFreeByte, Views(slabs))
    }

    /** The fields init_slab_allocator sets before create_slabs, with the pool malloc'ed. */
    constructor (possibleSlabs: nat, poolSize: nat)
      ensures Valid() && fresh(Repr)
      ensures View() == ArenaView(0, possibleSlabs, poolSize, 0, [])
    {
      availSlabs := 0;
      this.possibleSlabs := possibleSlabs;
      pool := new byte[poolSize];
      this.poolSize := poolSize;
      firstFreeByte := 0;
      slabs := [];
      Repr := {this, pool};
    }

    /** malloc_bytes: hands out the bytes at first_free_byte and bumps it by the request. */
    method MallocBytes(sizeRequest: nat) returns (offset: nat)
      modifies this
      ensures offset == old(firstFreeByte) && firstFreeByte == old(firstFreeByte) + sizeRequest
      ensures availSlabs == old(availSlabs) && possibleSlabs == old(possibleSlabs)
      ensures pool == old(pool) && poolSize == old(poolSize) && slabs == old(slabs) && Repr == old(Repr)
    {
      offset := firstFreeByte;
      firstFreeByte := offset + sizeRequest;
    }

    /**
     * create_chunks: gives the slab's chunks consecutive data from the pool
     * and skips the remainder, so first_free_byte moves on by exactly 1 MB.
     */
    method CreateChunks(s: Slab)
      requires s.Valid() && s.chunkSize > 0 && s.numChunks == GetNumberChunks(s.chunkSize)
      modifies this, s.chunks
      ensures firstFreeByte == old(firstFreeByte) + MegaByte
      ensures forall i :: 0 <= i < s.chunks.Length ==>
        s.chunks[i] == Chunk(false, old(firstFreeByte) + i * s.chunkSize)
      ensures availSlabs == old(availSlabs) && possibleSlabs == old(possibleSlabs)
      ensures pool == old(pool) && poolSize == old(poolSize) && slabs == old(slabs) && Repr == old(Repr)
    {
      ghost var start := firstFreeByte;
      var cs := s.chunkSize;
      var i := 0;
      while i < s.numChunks
        invariant 0 <= i <= s.numChunks
        invariant firstFreeByte == start + i * cs
        invariant forall j :: 0 <= j < i ==> s.chunks[j] == Chunk(false, start + j * cs)
        invariant availSlabs == old(availSlabs) && possibleSlabs == old(possibleSlabs)
        invariant pool == old(pool) && poolSize == old(poolSize) && slabs == old(slabs) && Repr == old(Repr)
      {
        var data := MallocBytes(cs);
        s.chunks[i] := Chunk(false, data);
        i := i + 1;
      }
      firstFreeByte := firstFreeByte + RemainderSize(cs);
    }

    /**
     * create_slab: lays out a slab record, its chunk array and its 1 MB of
     * data at first_free_byte and appends the slab to the list (as its head
     * when `position` is 0, which the C code uses only for the first slab).
     */
    method CreateSlab(csize: nat, position: int)
      requires Valid() && MinClass <= csize <= MaxClass
      requires position == 0 <==> slabs == []
      modifies this
      ensures Valid() && fresh(Repr - old(Repr))
      ensures View() == SlabSpec.CreateSlab(old(View()), csize)
      ensures pool == old(pool)
    {
      var s := LayOutSlab(csize);
      Link(s, position);
    }

    /** The second half of create_slab: the new slab joins the list at its end. */
    method Link(s: Slab, position: int)
      requires Valid() && s.Valid() && s !in Repr && s.chunks !in Repr
      requires position == 0 <==> slabs == []
      modifies this
      ensures Valid() && Repr == old(Repr) + {s, s.chunks} && pool == old(pool)
      ensures View() == old(View()).(availSlabs := old(availSlabs) + 1, slabs := old(View()).slabs + [s.View()])
    {
      ghost var a := View();
      if position == 0 {
        slabs := [s];
      } else {
        slabs := slabs + [s];
      }
      assert slabs == old(slabs) + [s];
      availSlabs := availSlabs + 1;
      Repr := Repr + {s, s.chunks};
      forall k | 0 <= k < |slabs|
        ensures slabs[k] in Repr && slabs[k].chunks in Repr && slabs[k].Valid()
      {
        if k < |slabs| - 1 {
          assert slabs[k] == old(slabs)[k];
        }
      }
      forall k1, k2 | 0 <= k1 < k2 < |slabs|
        ensures slabs[k1] != slabs[k2] && slabs[k1].chunks != slabs[k2].chunks
      {
        assert slabs[k1] == old(slabs)[k1] && slabs[k1] in old(Repr);
      }
      assert Views(slabs) == a.slabs + [s.View()];
    }

    /**
     * The first half of create_slab: the slab record, its chunk array and
     * its chunks' data taken from the pool in that order.
     */
    method LayOutSlab(csize: nat) returns (s: Slab)
      requires MinClass <= csize <= MaxClass
      modifies this
      ensures fresh(s) && fresh(s.chunks) && s.Valid()
      ensures s.View() == NewSlab(csize, old(firstFreeByte))
      ensures firstFreeByte == old(firstFreeByte) + SlabFootprint(csize)
      ensures availSlabs == old(availSlabs) && possibleSlabs == old(possibleSlabs)
      ensures pool == old(pool) && poolSize == old(poolSize) && slabs == old(slabs) && Repr == old(Repr)
    {
      ChunksAtMostMax(csize);
      var start := MallocBytes(SlabRecordSize);
      var n := GetNumberChunks(csize);
      s := new Slab(csize, n);
      var chunkArray := MallocBytes(n * ChunkRecordSize);
      CreateChunks(s);
      assert s.View() == NewSlab(csize, start);
    }

    /**
     * create_slabs: the first slab of class 80 as the list head, then one
     * slab for each further class, each class get_chunk_size of the last.
     * The ghost `classes` is that chain of classes (ClassTable, at init).
     */
    method CreateSlabs(tn: nat, ghost classes: seq<nat>)
      requires Valid() && slabs == [] && 1 <= tn <= |classes| && classes[0] == MinClass
      requires forall j :: 0 <= j < |classes| ==> MinClass <= classes[j] <= MaxClass
      requires forall j :: 0 < j < |classes| ==> classes[j] == GetChunkSize(classes[j - 1])
      modifies this
      ensures Valid() && fresh(Repr - old(Repr))
      ensures View() == SlabSpec.CreateSlabs(old(View()), classes, tn)
      ensures pool == old(pool)
    {
      var csize := MinClass;
      CreateSlab(csize, 0);
      var i := 1;
      while i < tn
        invariant 1 <= i <= tn
        invariant csize == classes[i - 1]
        invariant Valid() && fresh(Repr - old(Repr)) && pool == old(pool)
        invariant View() == SlabSpec.CreateSlabs(old(View()), classes, i)
      {
        csize := GetChunkSize(csize);
        assert csize == classes[i];
        CreateSlab(csize, 3);
        i := i + 1;
      }
    }

    /**
     * init_slab_allocator: no allocator for a pool below 1 MB or below
     * 41 MB; otherwise one pool of all_size bytes holding a slab of each of
     * the 41 classes, with room left for possible_slabs slabs in all.  The
     * C code exits when all_size exceeds 2^60 bytes or malloc fails; the
     * first cannot happen for a TN that fits in an `int`, and the second is
     * not modelled.
     */
    static method Init(memPoolSize: nat) returns (r: Option<Allocator>)
      requires NumberSlabClasses(memPoolSize) <= IntMax
      ensures r.None? <==> InitArena(memPoolSize).None?
      ensures r.Some? ==>
        fresh(r.value.Repr) && r.value.Ready() && r.value.View() == InitArena(memPoolSize).value
    {
      if memPoolSize < MegaByte {
        return None;
      }
      var tn := NumberSlabClasses(memPoolSize);
      if tn == 0 {
        return None;
      }
      var possible := tn;
      if tn > ClassCount {
        tn := ClassCount;
      }
      var alloc := Build(possible, tn);
      return Some(alloc);
    }

    /**
     * The rest of init_slab_allocator once TN is known: all_size computed as
     * the C code does, the pool allocated, and the first `tn` classes' slabs
     * laid out.
     */
    static method Build(possible: nat, tn: nat) returns (alloc: Allocator)
      requires ClassCount <= possible <= IntMax && tn == ClassCount
      ensures fresh(alloc.Repr) && alloc.Ready() && alloc.View() == InitialArena(possible)
    {
      var maxExtraChunks := (possible - ClassCount) * MaxChunksPerSlab;
      var totalSlabSize := possible * SlabRecordSize;
      var totalChunkSize := (InitChunkCount + maxExtraChunks) * ChunkRecordSize;
      var totalDataSize := possible * MegaByte;
      var allSize := totalSlabSize + totalChunkSize + totalDataSize;
      assert allSize == AllSize(possible);
      AllSizeBelowExabyte(possible);
      alloc := new Allocator(possible, allSize);
      ClassTableBounds();
      TableSteps();
      alloc.CreateSlabs(tn, ClassTable);
      InitialArenaInv(possible);
    }

    /** closest_chunk_size and the walk of the slab list in pick_slab. */
    method PickSlab(numBytes: int) returns (picked: Option<nat>)
      requires Valid() && numBytes >= 0
      ensures picked == SlabSpec.PickSlab(View().slabs, numBytes)
    {
      var upBound := ClosestChunkSize(numBytes);
      var k := 0;
      while k < |slabs| && !(slabs[k].chunkSize == upBound && slabs[k].hasSpace)
        invariant 0 <= k <= |slabs|
        invariant PickSlabFrom(View().slabs, upBound, 0) == PickSlabFrom(View().slabs, upBound, k)
      {
        k := k + 1;
      }
      picked := if k < |slabs| then Some(k) else None;
    }

    /**
     * alloc_mem: NULL for a request of no bytes; otherwise a chunk from the
     * first slab of the request's class with space, creating a slab of that
     * class first when there is none and the pool has room for one more.
     */
    method AllocMem(numBytes: int) returns (ptr: Option<nat>)
      requires Ready()
      modifies Repr
      ensures View() == SlabSpec.AllocMem(old(View()), numBytes).0
      ensures ptr == AllocPointer(old(View()), numBytes)
      ensures Ready() && fresh(Repr - old(Repr))
      ensures pool == old(pool) && unchanged(pool)
    {
      AllocMemKeepsInv(View(), numBytes);
      ptr := AllocSteps(numBytes);
    }

    /** The steps of alloc_mem, on an allocator whose slab list is not empty. */
    method AllocSteps(numBytes: int) returns (ptr: Option<nat>)
      requires Valid() && slabs != []
      modifies Repr
      ensures View() == SlabSpec.AllocMem(old(View()), numBytes).0
      ensures ptr == AllocPointer(old(View()), numBytes)
      ensures Valid() && fresh(Repr - old(Repr))
      ensures pool == old(pool) && unchanged(pool)
    {
      ghost var a := View();
      if numBytes <= 0 {
        AllocMemRefused(a, numBytes);
        return None;
      }
      var pickedSlab := PickSlab(numBytes);
      assert View() == a;
      if pickedSlab.Some? {
        AllocMemFromExisting(a, numBytes, pickedSlab.value);
        ptr := PickChunkAt(pickedSlab.value);
      } else if availSlabs < possibleSlabs {
        ptr := AllocFromNewSlab(numBytes);
      } else {
        AllocMemRefused(a, numBytes);
        ptr := None;
      }
      assert View() == SlabSpec.AllocMem(a, numBytes).0;
    }

    /** The branch of alloc_mem that adds a slab of the request's class and picks from it. */
    method AllocFromNewSlab(numBytes: int) returns (ptr: Option<nat>)
      requires Valid() && slabs != [] && numBytes > 0 && availSlabs < possibleSlabs
      requires SlabSpec.PickSlab(View().slabs, numBytes).None?
      modifies Repr
      ensures View() == SlabSpec.AllocMem(old(View()), numBytes).0
      ensures ptr == AllocPointer(old(View()), numBytes)
      ensures Valid() && fresh(Repr - old(Repr))
      ensures pool == old(pool) && unchanged(pool)
    {
      ghost var a := View();
      var csize := ClosestChunkSize(numBytes);
      assert MinClass <= csize <= MaxClass by {
        ChunkSizeForFits(numBytes);
      }
      CreateSlab(csize, 3);
      assert View() == SlabSpec.CreateSlab(a, ChunkSizeFor(numBytes));
      ptr := PickFromNewSlab(a, numBytes);
    }

    /** The rest of that branch: pick_slab again, now that a slab of the class was added. */
    method PickFromNewSlab(ghost a: ArenaView, numBytes: int) returns (ptr: Option<nat>)
      requires Valid() && numBytes > 0 && a.availSlabs < a.possibleSlabs
      requires SlabSpec.PickSlab(a.slabs, numBytes).None?
      requires View() == SlabSpec.CreateSlab(a, ChunkSizeFor(numBytes))
      modifies Repr
      ensures View() == SlabSpec.AllocMem(a, numBytes).0
      ensures ptr == AllocPointer(a, numBytes)
      ensures Valid() && Repr == old(Repr) && pool == old(pool) && unchanged(pool)
    {
      ghost var b := View();
      var pickedSlab := PickSlab(numBytes);
      assert View() == b;
      if pickedSlab.None? {
        PickSlabAfterCreate(a, numBytes);
        return None;
      }
      AllocMemFromNew(a, numBytes, b, pickedSlab.value);
      ptr := PickChunkAt(pickedSlab.value);
    }

    /** pick_chunk on the slab at position `k` of the list, and the data of the chunk it took. */
    method PickChunkAt(k: nat) returns (ptr: Option<nat>)
      requires Valid() && k < |slabs|
      modifies slabs[k], slabs[k].chunks
      ensures Valid()
      ensures View() == PickFrom(old(View()), k).0
      ensures ptr == PointerOf(PickFrom(old(View()), k))
    {
      var s := slabs[k];
      var picked := s.PickChunk();
      if picked.None? {
        return None;
      }
      ptr := Some(s.chunks[picked.value].data);
    }

    /** remove_if_belong_here on the slab at position `k` of the list. */
    method RemoveAt(k: nat, ptr: int) returns (found: int)
      requires Valid() && k < |slabs|
      modifies slabs[k].chunks
      ensures Valid()
      ensures View() == WithSlab(old(View()), k, RemoveIfBelongHere(old(View()).slabs[k], ptr).0)
      ensures found == RemoveIfBelongHere(old(View()).slabs[k], ptr).1
    {
      var s := slabs[k];
      found := s.RemoveIfBelongHere(ptr);
    }

    /** alloc_mem with the request checked against the largest class first. */
    method AllocMemChecked(numBytes: int) returns (ptr: Option<nat>)
      requires Ready()
      modifies Repr
      ensures Ready() && fresh(Repr - old(Repr))
      ensures View() == SlabSpec.AllocMemChecked(old(View()), numBytes).0
      ensures ptr == PointerOf(SlabSpec.AllocMemChecked(old(View()), numBytes))
      ensures pool == old(pool) && unchanged(pool)
    {
      if numBytes > MaxClass {
        return None;
      }
      ptr := AllocMem(numBytes);
    }

    /**
     * free_mem: -1 for NULL; otherwise walks the list until a slab takes the
     * pointer back, then zeroes that chunk's chunk_size bytes; -1 when no
     * slab does.
     */
    method FreeMem(ptr: Option<int>) returns (found: int)
      requires Ready()
      modifies Repr
      ensures Ready() && Repr == old(Repr) && pool == old(pool)
      ensures View() == SlabSpec.FreeMem(old(View()), ptr).0
      ensures found == (if SlabSpec.FreeMem(old(View()), ptr).1.Some? then 0 else -1)
      ensures SlabSpec.FreeMem(old(View()), ptr).1.None? ==> unchanged(pool)
      ensures SlabSpec.FreeMem(old(View()), ptr).1.Some? ==>
        var p := ptr.value;
        var cs := old(View()).slabs[SlabSpec.FreeMem(old(View()), ptr).1.value].chunkSize;
        0 <= p && p + cs <= pool.Length &&
        forall i :: 0 <= i < pool.Length ==> pool[i] == (if p <= i < p + cs then 0 else old(pool[i]))
    {
      ghost var a := View();
      FreeMemKeepsInv(a, ptr);
      if ptr.None? {
        return -1;
      }
      if FreeFrom(a, ptr.value, 0).1.Some? {
        FreeMemBounds(a, ptr.value);
      }
      found := FreeSteps(ptr.value);
    }

    /** The walk and the memset of free_mem, for a pointer that is not NULL. */
    method FreeSteps(p: int) returns (found: int)
      requires Valid()
      requires FreeFrom(View(), p, 0).1.Some? ==>
        0 <= p && p + View().slabs[FreeFrom(View(), p, 0).1.value].chunkSize <= poolSize
      modifies Repr
      ensures Valid() && Repr == old(Repr) && pool == old(pool)
      ensures View() == FreeFrom(old(View()), p, 0).0
      ensures found == (if FreeFrom(old(View()), p, 0).1.Some? then 0 else -1)
      ensures FreeFrom(old(View()), p, 0).1.None? ==> unchanged(pool)
      ensures FreeFrom(old(View()), p, 0).1.Some? ==>
        var cs := old(View()).slabs[FreeFrom(old(View()), p, 0).1.value].chunkSize;
        0 <= p && p + cs <= pool.Length &&
        forall i :: 0 <= i < pool.Length ==> pool[i] == (if p <= i < p + cs then 0 else old(pool[i]))
    {
      ghost var a := View();
      var k;
      found, k := TakeBack(p);
      if found >= 0 {
        ZeroBytes(p, slabs[k].chunkSize);
      }
    }

    /**
     * The loop of free_mem: remove_if_belong_here on each slab in list order
     * until one takes the pointer back; `k` is that slab's position.
     */
    method TakeBack(p: int) returns (found: int, k: nat)
      requires Valid()
      modifies ChunkArrays(slabs)
      ensures Valid()
      ensures View() == FreeFrom(old(View()), p, 0).0
      ensures found == (if FreeFrom(old(View()), p, 0).1.Some? then 0 else -1)
      ensures found == 0 ==> FreeFrom(old(View()), p, 0).1 == Some(k) && k < |slabs|
    {
      ghost var a := View();
      found := -1;
      k := 0;
      while k < |slabs| && found < 0
        invariant 0 <= k <= |slabs|
        invariant Valid()
        invariant found == 0 || found == -1
        invariant found < 0 ==> View() == a && FreeFrom(a, p, k) == FreeFrom(a, p, 0)
        invariant found == 0 ==> k < |slabs| && (View(), Some(k)) == FreeFrom(a, p, 0)
        decreases |slabs| - k, -found
      {
        found := RemoveAt(k, p);
        if found < 0 {
          k := k + 1;
        }
      }
    }

    /** The memset of free_mem: `count` bytes of the pool from `p` set to zero. */
    method ZeroBytes(p: nat, count: nat)
      requires p + count <= pool.Length
      modifies pool
      ensures forall i :: 0 <= i < pool.Length ==> pool[i] == (if p <= i < p + count then 0 else old(pool[i]))
    {
      forall i | p <= i < p + count {
        pool[i] := 0;
      }
    }
  }

  /** For a TN that fits in an `int`, all_size stays below 2^60: the exit never happens. */
  lemma AllSizeBelowExabyte(tn: nat)
    requires ClassCount <= tn <= IntMax
    ensures AllSize(tn) <= ExaByte
  {
  }
}
