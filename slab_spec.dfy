/**
 * The slab allocator as values: what every slab, chunk and counter holds,
 * and what `pick_chunk`, `pick_slab`, `create_slab`, `alloc_mem`,
 * `remove_if_belong_here` and `free_mem` do to them.  The classes in
 * SlabAllocator are proved to follow these functions step by step.
 *
 * Pointers into the pool are byte offsets from its start.  The slab and
 * chunk records that the C code also carves out of the pool are accounted
 * for by the offsets they take up; their contents are the fields below.
 */
module SlabSpec {
  import opened Wrappers
  import opened SizeClasses

  /** sizeof(struct slab) and sizeof(struct chunk) on an LP64 target. */
  const SlabRecordSize: nat := 48
  const ChunkRecordSize: nat := 16

  /** Pool bytes one slab of the given class takes: record, chunk array, 1 MB of data. */
  function SlabFootprint(chunkSize: nat): nat
    requires chunkSize > 0
  {
    SlabRecordSize + GetNumberChunks(chunkSize) * ChunkRecordSize + MegaByte
  }

  /** The footprint of a slab of the smallest class, the largest there is. */
  const MaxSlabFootprint: nat := SlabRecordSize + MaxChunksPerSlab * ChunkRecordSize + MegaByte

  /** struct chunk: the used flag and the pool offset of the chunk's data. */
  datatype Chunk = Chunk(isUsed: bool, data: nat)

  /** struct slab: its class, has_space, and its chunk array in index order. */
  datatype SlabView = SlabView(chunkSize: nat, hasSpace: bool, chunks: seq<Chunk>)

  /**
   * struct slab_allocator: the slab list from slab_head to slab_tail is the
   * sequence `slabs`.
   */
  datatype ArenaView = ArenaView(
    availSlabs: nat,
    possibleSlabs: nat,
    poolSize: nat,
    firstFreeByte: nat,
    slabs: seq<SlabView>)

  /** Where a chunk sits: slab index in the list, chunk index in the slab. */
  datatype Slot = Slot(slab: nat, chunk: nat)

  /** Offset of a slab's first chunk. */
  function Base(s: SlabView): nat
    requires |s.chunks| > 0
  {
    s.chunks[0].data
  }

  /**
   * A slab as create_slab lays it out: a class between 80 and 573760, as
   * many chunks as fit in 1 MB, chunk data spaced `chunkSize` apart, and
   * `has_space` only while the last chunk is free.
   */
  ghost predicate SlabOk(s: SlabView)
  {
    MinClass <= s.chunkSize <= MaxClass &&
    |s.chunks| == GetNumberChunks(s.chunkSize) && |s.chunks| > 0 &&
    (forall i :: 0 <= i < |s.chunks| ==> s.chunks[i].data == s.chunks[0].data + i * s.chunkSize) &&
    (s.hasSpace ==> !s.chunks[|s.chunks| - 1].isUsed)
  }

  /**
   * How create_slab lays slabs out: avail_slabs counts the list, every slab
   * is well formed, and the slabs' 1 MB data regions follow one another in
   * list order below first_free_byte.
   */
  ghost predicate Laid(a: ArenaView)
  {
    a.availSlabs == |a.slabs| &&
    (forall k :: 0 <= k < |a.slabs| ==> SlabOk(a.slabs[k])) &&
    (forall k :: 0 <= k < |a.slabs| ==> Base(a.slabs[k]) + MegaByte <= a.firstFreeByte) &&
    (forall k1, k2 :: 0 <= k1 < k2 < |a.slabs| ==> Base(a.slabs[k1]) + MegaByte <= Base(a.slabs[k2]))
  }

  /**
   * The allocator's invariant: the slabs are laid out as above, there are
   * at least the 41 initial slabs and at most possible_slabs, and the pool still has room for a slab of
   * any class for each slab that may yet be created.
   */
  ghost predicate ArenaInv(a: ArenaView)
  {
    Laid(a) && ClassCount <= a.availSlabs <= a.possibleSlabs &&
    a.firstFreeByte + (a.possibleSlabs - a.availSlabs) * MaxSlabFootprint <= a.poolSize
  }

  /** Every chunk's data lies inside its slab's 1 MB region. */
  lemma ChunkInSlab(s: SlabView, i: nat)
    requires SlabOk(s) && i < |s.chunks|
    ensures Base(s) + i * s.chunkSize == s.chunks[i].data
    ensures s.chunks[i].data + s.chunkSize <= Base(s) + MegaByte
  {
    var n := |s.chunks|;
    var c := s.chunkSize;
    MulMonotonic(c, i + 1, n);
    assert c * (i + 1) == c * i + c;
    assert n * c <= MegaByte;
  }

  lemma MultipleDistinct(i: nat, j: nat, c: nat)
    requires i != j && c > 0
    ensures i * c != j * c
  {
    if i < j {
      assert (j - i) * c > 0;
    } else {
      assert (i - j) * c > 0;
    }
  }

  /** Two chunks of a well-formed arena at different slots have different data. */
  lemma DataDistinct(a: ArenaView, p: Slot, q: Slot)
    requires ArenaInv(a)
    requires p.slab < |a.slabs| && p.chunk < |a.slabs[p.slab].chunks|
    requires q.slab < |a.slabs| && q.chunk < |a.slabs[q.slab].chunks|
    requires p != q
    ensures a.slabs[p.slab].chunks[p.chunk].data != a.slabs[q.slab].chunks[q.chunk].data
  {
    var s, t := a.slabs[p.slab], a.slabs[q.slab];
    ChunkInSlab(s, p.chunk);
    ChunkInSlab(t, q.chunk);
    if p.slab == q.slab {
      MultipleDistinct(p.chunk, q.chunk, s.chunkSize);
    } else if p.slab < q.slab {
      assert Base(s) + MegaByte <= Base(t);
    } else {
      assert Base(t) + MegaByte <= Base(s);
    }
  }

  // ---------------------------------------------------------------------
  // pick_chunk

  /** The lowest index at or after `i` whose chunk is not in use. */
  function FirstUnusedFrom(chunks: seq<Chunk>, i: nat): (r: Option<nat>)
    requires i <= |chunks|
    ensures r.Some? ==> i <= r.value < |chunks| && !chunks[r.value].isUsed
    ensures r.Some? ==> forall j :: i <= j < r.value ==> chunks[j].isUsed
    ensures r.None? ==> forall j :: i <= j < |chunks| ==> chunks[j].isUsed
    decreases |chunks| - i
  {
    if i == |chunks| then None
    else if !chunks[i].isUsed then Some(i)
    else FirstUnusedFrom(chunks, i + 1)
  }

  /** `chunks` with the used flag of chunk `i` set to `used`. */
  function SetUsed(chunks: seq<Chunk>, i: nat, used: bool): (r: seq<Chunk>)
    requires i < |chunks|
    ensures |r| == |chunks| && r[i] == Chunk(used, chunks[i].data)
    ensures forall j :: 0 <= j < |chunks| && j != i ==> r[j] == chunks[j]
  {
    chunks[i := chunks[i].(isUsed := used)]
  }

  /**
   * pick_chunk: marks the lowest free chunk as used and returns its index;
   * clears has_space when that chunk is the last one.  With no free chunk
   * nothing changes and the result is NULL.
   */
  function PickChunk(s: SlabView): (r: (SlabView, Option<nat>))
  {
    match FirstUnusedFrom(s.chunks, 0)
    case None => (s, None)
    case Some(i) =>
      (s.(chunks := SetUsed(s.chunks, i, true),
          hasSpace := if i == |s.chunks| - 1 then false else s.hasSpace),
       Some(i))
  }

  /**
   * pick_chunk takes the lowest free chunk, changes no other chunk, and
   * clears has_space exactly when it took the last chunk; it fails only
   * when every chunk is in use.
   */
  lemma PickChunkTakesLowestFree(s: SlabView)
    ensures PickChunk(s).1.None? <==> forall j :: 0 <= j < |s.chunks| ==> s.chunks[j].isUsed
    ensures PickChunk(s).1.None? ==> PickChunk(s).0 == s
    ensures PickChunk(s).1.Some? ==>
      var i := PickChunk(s).1.value;
      var t := PickChunk(s).0;
      i < |s.chunks| && !s.chunks[i].isUsed &&
      (forall j :: 0 <= j < i ==> s.chunks[j].isUsed) &&
      t.chunkSize == s.chunkSize && |t.chunks| == |s.chunks| &&
      t.chunks[i] == Chunk(true, s.chunks[i].data) &&
      (forall j :: 0 <= j < |s.chunks| && j != i ==> t.chunks[j] == s.chunks[j]) &&
      t.hasSpace == (s.hasSpace && i != |s.chunks| - 1)
  {
  }

  /** A slab whose has_space is set always yields a chunk. */
  lemma PickChunkSucceedsWithSpace(s: SlabView)
    requires SlabOk(s) && s.hasSpace
    ensures PickChunk(s).1.Some?
  {
    assert !s.chunks[|s.chunks| - 1].isUsed;
  }

  /** pick_chunk keeps a slab well formed: has_space still implies a free last chunk. */
  lemma PickChunkKeepsSlabOk(s: SlabView)
    requires SlabOk(s)
    ensures SlabOk(PickChunk(s).0)
  {
    PickChunkTakesLowestFree(s);
    var t := PickChunk(s).0;
    if PickChunk(s).1.Some? {
      var i := PickChunk(s).1.value;
      forall j | 0 <= j < |t.chunks|
        ensures t.chunks[j].data == t.chunks[0].data + j * t.chunkSize
      {
        assert t.chunks[j].data == s.chunks[j].data;
        assert t.chunks[0].data == s.chunks[0].data;
      }
    }
  }

  // ---------------------------------------------------------------------
  // pick_slab

  /** The first slab from position `k` on that serves `chunkSize` and has space. */
  function PickSlabFrom(slabs: seq<SlabView>, chunkSize: nat, k: nat): (r: Option<nat>)
    requires k <= |slabs|
    ensures r.Some? ==> (k <= r.value < |slabs| &&
      slabs[r.value].chunkSize == chunkSize && slabs[r.value].hasSpace)
    ensures r.Some? ==> forall j :: k <= j < r.value ==>
      !(slabs[j].chunkSize == chunkSize && slabs[j].hasSpace)
    ensures r.None? ==> forall j :: k <= j < |slabs| ==>
      !(slabs[j].chunkSize == chunkSize && slabs[j].hasSpace)
    decreases |slabs| - k
  {
    if k == |slabs| then None
    else if slabs[k].chunkSize == chunkSize && slabs[k].hasSpace then Some(k)
    else PickSlabFrom(slabs, chunkSize, k + 1)
  }

  /** pick_slab: the first slab in the list whose class fits the request and has space. */
  function PickSlab(slabs: seq<SlabView>, numBytes: int): Option<nat>
  {
    PickSlabFrom(slabs, ChunkSizeFor(numBytes), 0)
  }

  // ---------------------------------------------------------------------
  // create_slab

  /** A fresh slab whose record starts at `start`: every chunk free, has_space set. */
  function NewSlab(chunkSize: nat, start: nat): (s: SlabView)
    requires chunkSize > 0
  {
    var n := GetNumberChunks(chunkSize);
    var first := start + SlabRecordSize + n * ChunkRecordSize;
    SlabView(chunkSize, true, seq(n, i requires 0 <= i < n => Chunk(false, first + i * chunkSize)))
  }

  /** create_slab: appends a fresh slab at first_free_byte and advances the counters. */
  function CreateSlab(a: ArenaView, chunkSize: nat): ArenaView
    requires chunkSize > 0
  {
    a.(slabs := a.slabs + [NewSlab(chunkSize, a.firstFreeByte)],
       availSlabs := a.availSlabs + 1,
       firstFreeByte := a.firstFreeByte + SlabFootprint(chunkSize))
  }

  lemma NewSlabOk(chunkSize: nat, start: nat)
    requires MinClass <= chunkSize <= MaxClass
    ensures SlabOk(NewSlab(chunkSize, start))
    ensures Base(NewSlab(chunkSize, start)) + MegaByte == start + SlabFootprint(chunkSize)
  {
    ChunksAtMostMax(chunkSize);
  }

  /** create_slab keeps the layout: the new slab's region starts past every other. */
  lemma CreateSlabKeepsLaid(a: ArenaView, chunkSize: nat)
    requires Laid(a) && MinClass <= chunkSize <= MaxClass
    ensures Laid(CreateSlab(a, chunkSize))
  {
    NewSlabOk(chunkSize, a.firstFreeByte);
    var b := CreateSlab(a, chunkSize);
    forall k | 0 <= k < |b.slabs|
      ensures SlabOk(b.slabs[k]) && Base(b.slabs[k]) + MegaByte <= b.firstFreeByte
    {
      if k < |a.slabs| {
        assert b.slabs[k] == a.slabs[k];
      }
    }
    forall k1, k2 | 0 <= k1 < k2 < |b.slabs|
      ensures Base(b.slabs[k1]) + MegaByte <= Base(b.slabs[k2])
    {
      assert b.slabs[k1] == a.slabs[k1];
      if k2 < |a.slabs| {
        assert b.slabs[k2] == a.slabs[k2];
      }
    }
  }

  /** Appending a slab while avail_slabs < possible_slabs keeps the invariant. */
  lemma CreateSlabKeepsInv(a: ArenaView, chunkSize: nat)
    requires ArenaInv(a) && a.availSlabs < a.possibleSlabs
    requires MinClass <= chunkSize <= MaxClass
    ensures ArenaInv(CreateSlab(a, chunkSize))
  {
    CreateSlabKeepsLaid(a, chunkSize);
    ChunksAtMostMax(chunkSize);
    var b := CreateSlab(a, chunkSize);
    assert SlabFootprint(chunkSize) <= MaxSlabFootprint;
    assert (b.possibleSlabs - b.availSlabs) * MaxSlabFootprint
        == (a.possibleSlabs - a.availSlabs) * MaxSlabFootprint - MaxSlabFootprint;
  }

  // ---------------------------------------------------------------------
  // alloc_mem

  /** The slab list with slab `k` replaced. */
  function WithSlab(a: ArenaView, k: nat, s: SlabView): ArenaView
    requires k < |a.slabs|
  {
    a.(slabs := a.slabs[k := s])
  }

  /** pick_chunk on slab `k`, with the data offset of the chunk it took. */
  function PickFrom(a: ArenaView, k: nat): (r: (ArenaView, Option<Slot>))
    requires k < |a.slabs|
  {
    var (s, i) := PickChunk(a.slabs[k]);
    (WithSlab(a, k, s), if i.Some? then Some(Slot(k, i.value)) else None)
  }

  /**
   * alloc_mem: NULL for a request of no bytes; otherwise a chunk from the
   * first slab of the request's class that has space, appending a new slab
   * of that class first when there is none and avail_slabs <
   * possible_slabs, and NULL when there is none and no slab may be added.
   * The result names the slot taken; the pointer is that chunk's data.
   */
  function AllocMem(a: ArenaView, numBytes: int): (r: (ArenaView, Option<Slot>))
  {
    if numBytes <= 0 then (a, None)
    else
      var cs := ChunkSizeFor(numBytes);
      match PickSlab(a.slabs, numBytes)
      case Some(k) => PickFrom(a, k)
      case None =>
        if a.availSlabs < a.possibleSlabs then
          var b := CreateSlab(a, cs);
          match PickSlab(b.slabs, numBytes)
          case Some(k) => PickFrom(b, k)
          case None => (b, None)
        else (a, None)
  }

  /** alloc_mem when a slab of the class has space: pick_chunk on the first such slab. */
  lemma AllocMemFromExisting(a: ArenaView, numBytes: int, k: nat)
    requires numBytes > 0 && PickSlab(a.slabs, numBytes) == Some(k)
    ensures AllocMem(a, numBytes) == PickFrom(a, k)
  {
  }

  /** alloc_mem refuses a request of no bytes, and one no slab can take when the pool is full. */
  lemma AllocMemRefused(a: ArenaView, numBytes: int)
    requires numBytes <= 0 || (PickSlab(a.slabs, numBytes).None? && a.availSlabs >= a.possibleSlabs)
    ensures AllocMem(a, numBytes) == (a, None)
  {
  }

  /** alloc_mem when no slab of the class has space but one may be added. */
  lemma AllocMemFromNew(a: ArenaView, numBytes: int, b: ArenaView, k: nat)
    requires numBytes > 0 && PickSlab(a.slabs, numBytes).None? && a.availSlabs < a.possibleSlabs
    requires b == CreateSlab(a, ChunkSizeFor(numBytes)) && PickSlab(b.slabs, numBytes) == Some(k)
    ensures AllocMem(a, numBytes) == PickFrom(b, k)
  {
  }

  /** The pointer an allocation returns: the data offset of the chunk it took. */
  function PointerOf(r: (ArenaView, Option<Slot>)): Option<nat>
  {
    var (b, slot) := r;
    if slot.Some? && slot.value.slab < |b.slabs| && slot.value.chunk < |b.slabs[slot.value.slab].chunks|
    then Some(b.slabs[slot.value.slab].chunks[slot.value.chunk].data)
    else None
  }

  /** The pointer alloc_mem returns. */
  function AllocPointer(a: ArenaView, numBytes: int): Option<nat>
  {
    PointerOf(AllocMem(a, numBytes))
  }

  /** Replacing a slab by one with the same place and class keeps the invariant. */
  lemma WithSlabKeepsInv(a: ArenaView, k: nat, s: SlabView)
    requires ArenaInv(a) && k < |a.slabs|
    requires SlabOk(s) && Base(s) == Base(a.slabs[k])
    ensures ArenaInv(WithSlab(a, k, s))
  {
    var b := WithSlab(a, k, s);
    forall j | 0 <= j < |b.slabs|
      ensures SlabOk(b.slabs[j]) && Base(b.slabs[j]) + MegaByte <= b.firstFreeByte
    {
      if j != k {
        assert b.slabs[j] == a.slabs[j];
      }
    }
    forall k1, k2 | 0 <= k1 < k2 < |b.slabs|
      ensures Base(b.slabs[k1]) + MegaByte <= Base(b.slabs[k2])
    {
      assert Base(b.slabs[k1]) == Base(a.slabs[k1]);
      assert Base(b.slabs[k2]) == Base(a.slabs[k2]);
    }
  }

  lemma PickFromKeepsInv(a: ArenaView, k: nat)
    requires ArenaInv(a) && k < |a.slabs|
    ensures ArenaInv(PickFrom(a, k).0)
  {
    PickChunkKeepsSlabOk(a.slabs[k]);
    PickChunkTakesLowestFree(a.slabs[k]);
    WithSlabKeepsInv(a, k, PickChunk(a.slabs[k]).0);
  }

  /** After create_slab of the request's class, pick_slab finds the new slab. */
  lemma PickSlabAfterCreate(a: ArenaView, numBytes: int)
    requires PickSlab(a.slabs, numBytes).None? && ChunkSizeFor(numBytes) > 0
    ensures PickSlab(CreateSlab(a, ChunkSizeFor(numBytes)).slabs, numBytes) == Some(|a.slabs|)
  {
    var b := CreateSlab(a, ChunkSizeFor(numBytes));
    assert b.slabs[|a.slabs|] == NewSlab(ChunkSizeFor(numBytes), a.firstFreeByte);
    forall j | 0 <= j < |a.slabs|
      ensures b.slabs[j] == a.slabs[j]
    {
    }
  }

  /** alloc_mem keeps the allocator's invariant. */
  lemma AllocMemKeepsInv(a: ArenaView, numBytes: int)
    requires ArenaInv(a)
    ensures ArenaInv(AllocMem(a, numBytes).0)
  {
    if numBytes > 0 {
      ChunkSizeForFits(numBytes);
      var cs := ChunkSizeFor(numBytes);
      match PickSlab(a.slabs, numBytes)
      case Some(k) =>
        PickFromKeepsInv(a, k);
      case None =>
        if a.availSlabs < a.possibleSlabs {
          CreateSlabKeepsInv(a, cs);
          PickSlabAfterCreate(a, numBytes);
          PickFromKeepsInv(CreateSlab(a, cs), |a.slabs|);
        }
    }
  }

  /**
   * When alloc_mem fails: exactly for a request of no bytes, or when no slab
   * of the class has space and no slab may be added; a failure changes
   * nothing.  A slab is appended exactly when none of the class has space
   * and avail_slabs < possible_slabs, and then the allocation succeeds.
   */
  lemma AllocMemOutcome(a: ArenaView, numBytes: int)
    requires ArenaInv(a)
    ensures AllocMem(a, numBytes).1.None? <==>
      numBytes <= 0 || (PickSlab(a.slabs, numBytes).None? && a.availSlabs == a.possibleSlabs)
    ensures AllocMem(a, numBytes).1.None? ==> AllocMem(a, numBytes).0 == a
    ensures numBytes <= 0 ==> AllocMem(a, numBytes) == (a, None)
    ensures |AllocMem(a, numBytes).0.slabs| == |a.slabs| + 1 <==>
      numBytes > 0 && PickSlab(a.slabs, numBytes).None? && a.availSlabs < a.possibleSlabs
    ensures |AllocMem(a, numBytes).0.slabs| == |a.slabs| || |AllocMem(a, numBytes).0.slabs| == |a.slabs| + 1
  {
    if numBytes > 0 {
      var cs := ChunkSizeFor(numBytes);
      match PickSlab(a.slabs, numBytes)
      case Some(k) =>
        PickChunkSucceedsWithSpace(a.slabs[k]);
      case None =>
        if a.availSlabs < a.possibleSlabs {
          ChunkSizeForFits(numBytes);
          PickSlabAfterCreate(a, numBytes);
          NewSlabOk(cs, a.firstFreeByte);
          PickChunkSucceedsWithSpace(CreateSlab(a, cs).slabs[|a.slabs|]);
        }
    }
  }

  /**
   * What a successful alloc_mem takes: the lowest free chunk of the first
   * slab of the request's class with space (or of the slab it just
   * appended), now marked used; every other slab and chunk is unchanged.
   */
  ghost predicate TakesLowestFree(a: ArenaView, numBytes: int)
    requires AllocMem(a, numBytes).1.Some?
  {
    var b := AllocMem(a, numBytes).0;
    var slot := AllocMem(a, numBytes).1.value;
    var src := if slot.slab < |a.slabs| then a.slabs[slot.slab]
               else NewSlab(ChunkSizeFor(numBytes), a.firstFreeByte);
    slot.slab == (if PickSlab(a.slabs, numBytes).Some? then PickSlab(a.slabs, numBytes).value else |a.slabs|) &&
    slot.slab < |b.slabs| && slot.chunk < |src.chunks| &&
    src.chunkSize == ChunkSizeFor(numBytes) &&
    !src.chunks[slot.chunk].isUsed &&
    (forall j :: 0 <= j < slot.chunk ==> src.chunks[j].isUsed) &&
    b.slabs[slot.slab].chunks == SetUsed(src.chunks, slot.chunk, true) &&
    b.slabs[slot.slab].chunkSize == src.chunkSize &&
    (forall k :: 0 <= k < |a.slabs| && k != slot.slab ==> b.slabs[k] == a.slabs[k])
  }

  lemma AllocMemTakesChunk(a: ArenaView, numBytes: int)
    requires AllocMem(a, numBytes).1.Some?
    ensures TakesLowestFree(a, numBytes)
  {
    if PickSlab(a.slabs, numBytes).Some? {
      TakesFromExisting(a, numBytes);
    } else {
      TakesFromNew(a, numBytes);
    }
  }

  lemma TakesFromExisting(a: ArenaView, numBytes: int)
    requires AllocMem(a, numBytes).1.Some? && PickSlab(a.slabs, numBytes).Some?
    ensures TakesLowestFree(a, numBytes)
  {
    var k := PickSlab(a.slabs, numBytes).value;
    AllocMemFromExisting(a, numBytes, k);
    PickFromTakes(a, k);
  }

  lemma TakesFromNew(a: ArenaView, numBytes: int)
    requires AllocMem(a, numBytes).1.Some? && PickSlab(a.slabs, numBytes).None?
    ensures TakesLowestFree(a, numBytes)
  {
    var cs := ChunkSizeFor(numBytes);
    ChunkSizeForFits(numBytes);
    PickSlabAfterCreate(a, numBytes);
    var b := CreateSlab(a, cs);
    AllocMemFromNew(a, numBytes, b, |a.slabs|);
    PickFromTakes(b, |a.slabs|);
    assert b.slabs[|a.slabs|] == NewSlab(cs, a.firstFreeByte);
    assert forall k :: 0 <= k < |a.slabs| ==> b.slabs[k] == a.slabs[k];
  }

  /** pick_chunk on slab `k` takes its lowest free chunk and leaves the other slabs alone. */
  lemma PickFromTakes(x: ArenaView, k: nat)
    requires k < |x.slabs| && PickFrom(x, k).1.Some?
    ensures
      var b := PickFrom(x, k).0;
      var slot := PickFrom(x, k).1.value;
      var src := x.slabs[k];
      slot.slab == k && |b.slabs| == |x.slabs| && slot.chunk < |src.chunks| &&
      !src.chunks[slot.chunk].isUsed &&
      (forall j :: 0 <= j < slot.chunk ==> src.chunks[j].isUsed) &&
      b.slabs[k].chunks == SetUsed(src.chunks, slot.chunk, true) &&
      b.slabs[k].chunkSize == src.chunkSize &&
      (forall j :: 0 <= j < |x.slabs| && j != k ==> b.slabs[j] == x.slabs[j])
  {
    PickChunkTakesLowestFree(x.slabs[k]);
  }

  /**
   * The pointer alloc_mem returns is the data of a chunk of the request's
   * class, and no chunk that was in use before has that data: a chunk is
   * never handed out twice.
   */
  lemma AllocPointerFresh(a: ArenaView, numBytes: int)
    requires ArenaInv(a) && AllocMem(a, numBytes).1.Some?
    ensures AllocPointer(a, numBytes).Some?
    ensures forall k, i :: 0 <= k < |a.slabs| && 0 <= i < |a.slabs[k].chunks| && a.slabs[k].chunks[i].isUsed ==>
      a.slabs[k].chunks[i].data != AllocPointer(a, numBytes).value
  {
    AllocMemTakesChunk(a, numBytes);
    AllocMemKeepsInv(a, numBytes);
    var b := AllocMem(a, numBytes).0;
    var slot := AllocMem(a, numBytes).1.value;
    forall k, i | 0 <= k < |a.slabs| && 0 <= i < |a.slabs[k].chunks| && a.slabs[k].chunks[i].isUsed
      ensures a.slabs[k].chunks[i].data != AllocPointer(a, numBytes).value
    {
      if k != slot.slab {
        assert b.slabs[k] == a.slabs[k];
      } else {
        assert i != slot.chunk;
        assert b.slabs[k].chunks[i] == a.slabs[k].chunks[i];
      }
      DataDistinct(b, Slot(k, i), slot);
    }
  }

  /**
   * The chunk alloc_mem hands out has the class closest_chunk_size gives
   * the request; for a request of at most 573760 bytes that class has room
   * for the request.
   */
  lemma AllocMemChunkClass(a: ArenaView, numBytes: int)
    requires ArenaInv(a) && AllocMem(a, numBytes).1.Some?
    ensures
      var b := AllocMem(a, numBytes).0;
      var slot := AllocMem(a, numBytes).1.value;
      slot.slab < |b.slabs| &&
      b.slabs[slot.slab].chunkSize == ChunkSizeFor(numBytes) &&
      (numBytes <= MaxClass ==> numBytes <= b.slabs[slot.slab].chunkSize)
  {
    AllocMemTakesChunk(a, numBytes);
    ChunkSizeForFits(numBytes);
  }

  /**
   * As written, alloc_mem serves a request above 573760 bytes from a
   * 573760-byte chunk: right after init_slab_allocator, a request for
   * 600000 bytes succeeds with a chunk 26240 bytes too small.
   */
  lemma AllocMemOversizeAfterInit(tn: nat, a: ArenaView)
    requires tn >= ClassCount && a == InitialArena(tn)
    ensures AllocMem(a, 600000).1.Some?
    ensures
      var b := AllocMem(a, 600000).0;
      var slot := AllocMem(a, 600000).1.value;
      slot.slab < |b.slabs| && b.slabs[slot.slab].chunkSize == MaxClass < 600000
  {
    InitialArenaInv(tn);
    InitialArenaSlabs(tn);
    LastClassIsMax();
    ChunkSizeForFits(600000);
    AllocMemOutcome(a, 600000);
    AllocMemChunkClass(a, 600000);
  }

  /**
   * alloc_mem as its contract intends: a request above the largest class
   * gets NULL and changes nothing, as every other failure does.
   */
  function AllocMemChecked(a: ArenaView, numBytes: int): (ArenaView, Option<Slot>)
  {
    if numBytes > MaxClass then (a, None) else AllocMem(a, numBytes)
  }

  /**
   * With the check, every chunk handed out has room for the request, and
   * the invariant is kept.
   */
  lemma AllocMemCheckedFits(a: ArenaView, numBytes: int)
    requires ArenaInv(a)
    ensures ArenaInv(AllocMemChecked(a, numBytes).0)
    ensures numBytes > MaxClass ==> AllocMemChecked(a, numBytes) == (a, None)
    ensures AllocMemChecked(a, numBytes).1.Some? ==>
      var b := AllocMemChecked(a, numBytes).0;
      var slot := AllocMemChecked(a, numBytes).1.value;
      slot.slab < |b.slabs| && numBytes <= b.slabs[slot.slab].chunkSize
  {
    if numBytes <= MaxClass {
      AllocMemKeepsInv(a, numBytes);
      if AllocMem(a, numBytes).1.Some? {
        AllocMemChunkClass(a, numBytes);
      }
    }
  }

  // ---------------------------------------------------------------------
  // remove_if_belong_here and free_mem

  /** The lowest index at or after `i` whose chunk is in use and has data `ptr`. */
  function FindUsedFrom(chunks: seq<Chunk>, ptr: int, i: nat): (r: Option<nat>)
    requires i <= |chunks|
    ensures r.Some? ==> i <= r.value < |chunks| && chunks[r.value].isUsed && chunks[r.value].data == ptr
    ensures r.None? ==> forall j :: i <= j < |chunks| ==> !(chunks[j].isUsed && chunks[j].data == ptr)
    decreases |chunks| - i
  {
    if i == |chunks| then None
    else if chunks[i].data == ptr && chunks[i].isUsed then Some(i)
    else FindUsedFrom(chunks, ptr, i + 1)
  }

  /**
   * remove_if_belong_here: 0 after marking the used chunk whose data is
   * `ptr` unused, -1 (and no change) when the slab has no such chunk.
   */
  function RemoveIfBelongHere(s: SlabView, ptr: int): (r: (SlabView, int))
  {
    match FindUsedFrom(s.chunks, ptr, 0)
    case None => (s, -1)
    case Some(i) => (s.(chunks := SetUsed(s.chunks, i, false)), 0)
  }

  /**
   * remove_if_belong_here returns 0 exactly when one of the slab's used
   * chunks has data `ptr`, and then frees such a chunk and no other;
   * otherwise it returns -1 and changes nothing.  It never touches
   * has_space.
   */
  lemma RemoveIfBelongHereIff(s: SlabView, ptr: int)
    ensures RemoveIfBelongHere(s, ptr).1 == 0 || RemoveIfBelongHere(s, ptr).1 == -1
    ensures RemoveIfBelongHere(s, ptr).1 == 0 <==>
      exists i :: 0 <= i < |s.chunks| && s.chunks[i].isUsed && s.chunks[i].data == ptr
    ensures RemoveIfBelongHere(s, ptr).1 == -1 ==> RemoveIfBelongHere(s, ptr).0 == s
    ensures RemoveIfBelongHere(s, ptr).1 == 0 ==>
      exists i :: 0 <= i < |s.chunks| && s.chunks[i].isUsed && s.chunks[i].data == ptr &&
        RemoveIfBelongHere(s, ptr).0 == s.(chunks := SetUsed(s.chunks, i, false))
    ensures RemoveIfBelongHere(s, ptr).0.hasSpace == s.hasSpace
    ensures RemoveIfBelongHere(s, ptr).0.chunkSize == s.chunkSize
  {
  }

  /** free_mem's walk: the first slab from position `k` on that takes `ptr` back. */
  function FreeFrom(a: ArenaView, ptr: int, k: nat): (r: (ArenaView, Option<nat>))
    requires k <= |a.slabs|
    ensures |r.0.slabs| == |a.slabs|
    ensures r.1.Some? ==> k <= r.1.value < |a.slabs|
    decreases |a.slabs| - k
  {
    if k == |a.slabs| then (a, None)
    else
      var (s, found) := RemoveIfBelongHere(a.slabs[k], ptr);
      if found < 0 then FreeFrom(a, ptr, k + 1)
      else (WithSlab(a, k, s), Some(k))
  }

  /**
   * free_mem: -1 for a NULL pointer; otherwise walks the slab list until a
   * slab takes the pointer back.  The second component is that slab's
   * position (free_mem's result is 0 when there is one and -1 otherwise).
   */
  function FreeMem(a: ArenaView, ptr: Option<int>): (r: (ArenaView, Option<nat>))
    ensures r.1.Some? ==> ptr.Some? && r.1.value < |a.slabs|
  {
    if ptr.None? then (a, None) else FreeFrom(a, ptr.value, 0)
  }

  /** The arena with chunk `slot` marked unused. */
  function Release(a: ArenaView, slot: Slot): ArenaView
    requires slot.slab < |a.slabs| && slot.chunk < |a.slabs[slot.slab].chunks|
  {
    var s := a.slabs[slot.slab];
    WithSlab(a, slot.slab, s.(chunks := SetUsed(s.chunks, slot.chunk, false)))
  }

  /** A used chunk's data is the pointer of that chunk and no other used chunk. */
  ghost predicate UsedAt(a: ArenaView, slot: Slot)
  {
    slot.slab < |a.slabs| && slot.chunk < |a.slabs[slot.slab].chunks| &&
    a.slabs[slot.slab].chunks[slot.chunk].isUsed
  }

  lemma {:induction false} FreeFromUsed(a: ArenaView, slot: Slot, k: nat)
    requires ArenaInv(a) && UsedAt(a, slot) && k <= slot.slab
    ensures FreeFrom(a, a.slabs[slot.slab].chunks[slot.chunk].data, k) == (Release(a, slot), Some(slot.slab))
    decreases slot.slab - k
  {
    var d := a.slabs[slot.slab].chunks[slot.chunk].data;
    var r := FindUsedFrom(a.slabs[k].chunks, d, 0);
    if r.Some? && Slot(k, r.value) != slot {
      DataDistinct(a, Slot(k, r.value), slot);
    }
    if k < slot.slab {
      assert r.None?;
      FreeFromUsed(a, slot, k + 1);
    } else {
      assert FindUsedFrom(a.slabs[k].chunks, d, 0) == Some(slot.chunk);
    }
  }

  lemma {:induction false} FreeFromUnknown(a: ArenaView, ptr: int, k: nat)
    requires k <= |a.slabs|
    requires forall j, i :: k <= j < |a.slabs| && 0 <= i < |a.slabs[j].chunks| ==>
      !(a.slabs[j].chunks[i].isUsed && a.slabs[j].chunks[i].data == ptr)
    ensures FreeFrom(a, ptr, k) == (a, None)
    decreases |a.slabs| - k
  {
    if k < |a.slabs| {
      if FindUsedFrom(a.slabs[k].chunks, ptr, 0).Some? {
        assert false;
      }
      FreeFromUnknown(a, ptr, k + 1);
    }
  }

  /** free_mem on the data of a used chunk returns 0 and frees that chunk and nothing else. */
  lemma FreeMemUsedChunk(a: ArenaView, slot: Slot)
    requires ArenaInv(a) && UsedAt(a, slot)
    ensures FreeMem(a, Some(a.slabs[slot.slab].chunks[slot.chunk].data)) == (Release(a, slot), Some(slot.slab))
  {
    FreeFromUsed(a, slot, 0);
  }

  /** free_mem of NULL, or of a pointer no used chunk has, returns -1 and changes nothing. */
  lemma FreeMemUnknown(a: ArenaView, ptr: Option<int>)
    requires ptr.Some? ==> forall k, i :: 0 <= k < |a.slabs| && 0 <= i < |a.slabs[k].chunks| ==>
      !(a.slabs[k].chunks[i].isUsed && a.slabs[k].chunks[i].data == ptr.value)
    ensures FreeMem(a, ptr) == (a, None)
  {
    if ptr.Some? {
      FreeFromUnknown(a, ptr.value, 0);
    }
  }

  /**
   * The bytes free_mem zeroes lie inside the pool: a pointer some slab takes
   * back is a chunk's data, and the chunk ends within the pool.
   */
  lemma FreeMemBounds(a: ArenaView, ptr: int)
    requires ArenaInv(a) && FreeMem(a, Some(ptr)).1.Some?
    ensures FreeMem(a, Some(ptr)).1.value < |a.slabs|
    ensures 0 <= ptr && ptr + a.slabs[FreeMem(a, Some(ptr)).1.value].chunkSize <= a.poolSize
  {
    var k := FreeMem(a, Some(ptr)).1.value;
    FreeFromFinds(a, ptr, 0);
    var i := FindUsedFrom(a.slabs[k].chunks, ptr, 0).value;
    ChunkInSlab(a.slabs[k], i);
  }

  /** The slab free_mem's walk stops at has a used chunk whose data is the pointer. */
  lemma {:induction false} FreeFromFinds(a: ArenaView, ptr: int, k: nat)
    requires k <= |a.slabs|
    ensures FreeFrom(a, ptr, k).1.Some? ==>
      FindUsedFrom(a.slabs[FreeFrom(a, ptr, k).1.value].chunks, ptr, 0).Some?
    decreases |a.slabs| - k
  {
    if k < |a.slabs| {
      FreeFromFinds(a, ptr, k + 1);
    }
  }


  /** Freeing a used chunk keeps the invariant: has_space still implies a free last chunk. */
  lemma ReleaseKeepsInv(a: ArenaView, slot: Slot)
    requires ArenaInv(a) && UsedAt(a, slot)
    ensures ArenaInv(Release(a, slot))
  {
    var s := a.slabs[slot.slab];
    var t := s.(chunks := SetUsed(s.chunks, slot.chunk, false));
    assert t.chunks[0].data == s.chunks[0].data;
    forall i | 0 <= i < |t.chunks|
      ensures t.chunks[i].data == t.chunks[0].data + i * t.chunkSize
    {
      assert t.chunks[i].data == s.chunks[i].data;
    }
    WithSlabKeepsInv(a, slot.slab, t);
  }

  /** free_mem keeps the allocator's invariant. */
  lemma FreeMemKeepsInv(a: ArenaView, ptr: Option<int>)
    requires ArenaInv(a)
    ensures ArenaInv(FreeMem(a, ptr).0)
  {
    if ptr.Some? && exists k, i :: (0 <= k < |a.slabs| && 0 <= i < |a.slabs[k].chunks| &&
        a.slabs[k].chunks[i].isUsed && a.slabs[k].chunks[i].data == ptr.value) {
      var k, i :| 0 <= k < |a.slabs| && 0 <= i < |a.slabs[k].chunks| &&
        a.slabs[k].chunks[i].isUsed && a.slabs[k].chunks[i].data == ptr.value;
      FreeMemUsedChunk(a, Slot(k, i));
      ReleaseKeepsInv(a, Slot(k, i));
    } else {
      FreeMemUnknown(a, ptr);
    }
  }

  /** Freeing the same pointer twice: the second free_mem returns -1 and changes nothing. */
  lemma DoubleFreeFails(a: ArenaView, slot: Slot)
    requires ArenaInv(a) && UsedAt(a, slot)
    ensures
      var d := a.slabs[slot.slab].chunks[slot.chunk].data;
      var b := FreeMem(a, Some(d)).0;
      FreeMem(b, Some(d)) == (b, None)
  {
    var d := a.slabs[slot.slab].chunks[slot.chunk].data;
    FreeMemUsedChunk(a, slot);
    var b := Release(a, slot);
    forall k, i | 0 <= k < |b.slabs| && 0 <= i < |b.slabs[k].chunks|
      ensures !(b.slabs[k].chunks[i].isUsed && b.slabs[k].chunks[i].data == d)
    {
      if Slot(k, i) != slot {
        DataDistinct(a, Slot(k, i), slot);
        if k != slot.slab {
          assert b.slabs[k] == a.slabs[k];
        }
      }
    }
    FreeMemUnknown(b, Some(d));
  }

  /**
   * Neither alloc_mem nor free_mem ever sets has_space back: a slab that
   * filled stays unselectable by pick_slab.
   */
  lemma FullSlabStaysFull(a: ArenaView, k: nat, numBytes: int, ptr: Option<int>)
    requires ArenaInv(a) && k < |a.slabs| && !a.slabs[k].hasSpace
    ensures |AllocMem(a, numBytes).0.slabs| >= |a.slabs| && !AllocMem(a, numBytes).0.slabs[k].hasSpace
    ensures |FreeMem(a, ptr).0.slabs| == |a.slabs| && !FreeMem(a, ptr).0.slabs[k].hasSpace
  {
    AllocMemOutcome(a, numBytes);
    if numBytes > 0 {
      var cs := ChunkSizeFor(numBytes);
      match PickSlab(a.slabs, numBytes)
      case Some(j) =>
        assert j != k;
      case None =>
        if a.availSlabs < a.possibleSlabs {
          var b := CreateSlab(a, cs);
          assert b.slabs[k] == a.slabs[k];
          PickSlabAfterCreate(a, numBytes);
        }
    }
    FreeMemHasSpace(a, ptr);
  }

  /** free_mem leaves every slab's class and has_space as they were. */
  lemma FreeMemHasSpace(a: ArenaView, ptr: Option<int>)
    ensures |FreeMem(a, ptr).0.slabs| == |a.slabs|
    ensures forall k :: 0 <= k < |a.slabs| ==>
      FreeMem(a, ptr).0.slabs[k].hasSpace == a.slabs[k].hasSpace &&
      FreeMem(a, ptr).0.slabs[k].chunkSize == a.slabs[k].chunkSize
  {
    if ptr.Some? {
      FreeFromHasSpace(a, ptr.value, 0);
    }
  }

  lemma {:induction false} FreeFromHasSpace(a: ArenaView, ptr: int, k: nat)
    requires k <= |a.slabs|
    ensures |FreeFrom(a, ptr, k).0.slabs| == |a.slabs|
    ensures forall j :: 0 <= j < |a.slabs| ==>
      FreeFrom(a, ptr, k).0.slabs[j].hasSpace == a.slabs[j].hasSpace &&
      FreeFrom(a, ptr, k).0.slabs[j].chunkSize == a.slabs[j].chunkSize
    decreases |a.slabs| - k
  {
    if k < |a.slabs| {
      RemoveIfBelongHereIff(a.slabs[k], ptr);
      FreeFromHasSpace(a, ptr, k + 1);
    }
  }

  /**
   * Round trip: freeing the pointer alloc_mem just returned succeeds and
   * gives back every chunk flag the slabs had before the allocation; a slab
   * the allocation appended is left with every chunk free.
   */
  lemma AllocThenFree(a: ArenaView, numBytes: int)
    requires ArenaInv(a) && AllocMem(a, numBytes).1.Some?
    ensures
      var b := AllocMem(a, numBytes).0;
      var c := FreeMem(b, AllocPointer(a, numBytes));
      c.1 == Some(AllocMem(a, numBytes).1.value.slab) &&
      |c.0.slabs| >= |a.slabs| &&
      (forall k :: 0 <= k < |a.slabs| ==> c.0.slabs[k].chunks == a.slabs[k].chunks) &&
      (forall k, i :: |a.slabs| <= k < |c.0.slabs| && 0 <= i < |c.0.slabs[k].chunks| ==> !c.0.slabs[k].chunks[i].isUsed)
  {
    AllocMemTakesChunk(a, numBytes);
    AllocMemKeepsInv(a, numBytes);
    AllocMemOutcome(a, numBytes);
    var b := AllocMem(a, numBytes).0;
    var slot := AllocMem(a, numBytes).1.value;
    var src := if slot.slab < |a.slabs| then a.slabs[slot.slab]
               else NewSlab(ChunkSizeFor(numBytes), a.firstFreeByte);
    assert UsedAt(b, slot);
    FreeMemUsedChunk(b, slot);
    var c := Release(b, slot);
    assert c.slabs[slot.slab].chunks == src.chunks;
    forall k | 0 <= k < |a.slabs|
      ensures c.slabs[k].chunks == a.slabs[k].chunks
    {
      if k != slot.slab {
        assert c.slabs[k] == b.slabs[k] == a.slabs[k];
      }
    }
  }

  // ---------------------------------------------------------------------
  // init_slab_allocator

  /** all_size: the pool init_slab_allocator requests for `tn` possible slabs. */
  function AllSize(tn: nat): nat
    requires tn >= ClassCount
  {
    tn * SlabRecordSize + (InitChunkCount + (tn - ClassCount) * MaxChunksPerSlab) * ChunkRecordSize + tn * MegaByte
  }

  /** Every entry of the class table is a class between 80 and 573760. */
  lemma ClassTableBounds()
    ensures |ClassTable| == ClassCount
    ensures forall j :: 0 <= j < ClassCount ==> MinClass <= ClassTable[j] <= MaxClass
  {
  }

  /** create_slabs: one slab for each of the first `k` entries of `classes`, in order. */
  function CreateSlabs(a: ArenaView, classes: seq<nat>, k: nat): ArenaView
    requires k <= |classes|
    requires forall j :: 0 <= j < |classes| ==> MinClass <= classes[j] <= MaxClass
  {
    if k == 0 then a else CreateSlab(CreateSlabs(a, classes, k - 1), classes[k - 1])
  }

  /**
   * init_slab_allocator: no allocator for a pool below 1 MB or below 41 MB;
   * otherwise possible_slabs is ceil(size / 1 MB), the pool is all_size
   * bytes, and one slab of each of the 41 classes is laid out from offset 0.
   */
  function InitArena(memPoolSize: nat): Option<ArenaView>
  {
    var tn := NumberSlabClasses(memPoolSize);
    if memPoolSize < MegaByte || tn == 0 then None
    else Some(InitialArena(tn))
  }

  /** The allocator init_slab_allocator builds for `tn` possible slabs. */
  function InitialArena(tn: nat): ArenaView
    requires tn >= ClassCount
  {
    ClassTableBounds();
    CreateSlabs(ArenaView(0, tn, AllSize(tn), 0, []), ClassTable, ClassCount)
  }

  /** Pool bytes the slabs of the first `k` classes take. */
  function SlabsFootprint(classes: seq<nat>, k: nat): nat
    requires k <= |classes|
    requires forall j :: 0 <= j < |classes| ==> MinClass <= classes[j] <= MaxClass
  {
    if k == 0 then 0 else SlabsFootprint(classes, k - 1) + SlabFootprint(classes[k - 1])
  }

  lemma {:induction false} CreateSlabsShape(a: ArenaView, classes: seq<nat>, k: nat)
    requires k <= |classes|
    requires forall j :: 0 <= j < |classes| ==> MinClass <= classes[j] <= MaxClass
    ensures var b := CreateSlabs(a, classes, k);
      |b.slabs| == |a.slabs| + k && b.availSlabs == a.availSlabs + k &&
      b.possibleSlabs == a.possibleSlabs && b.poolSize == a.poolSize &&
      b.firstFreeByte == a.firstFreeByte + SlabsFootprint(classes, k)
  {
    if k > 0 {
      CreateSlabsShape(a, classes, k - 1);
    }
  }

  lemma {:induction false} CreateSlabsLaid(a: ArenaView, classes: seq<nat>, k: nat)
    requires Laid(a) && k <= |classes|
    requires forall j :: 0 <= j < |classes| ==> MinClass <= classes[j] <= MaxClass
    ensures Laid(CreateSlabs(a, classes, k))
  {
    if k > 0 {
      CreateSlabsLaid(a, classes, k - 1);
      CreateSlabKeepsLaid(CreateSlabs(a, classes, k - 1), classes[k - 1]);
    }
  }

  lemma {:induction false} CreateSlabsFresh(a: ArenaView, classes: seq<nat>, k: nat)
    requires a.slabs == [] && k <= |classes|
    requires forall j :: 0 <= j < |classes| ==> MinClass <= classes[j] <= MaxClass
    ensures var b := CreateSlabs(a, classes, k);
      |b.slabs| == k &&
      forall j :: 0 <= j < k ==>
        b.slabs[j].chunkSize == classes[j] && b.slabs[j].hasSpace &&
        (forall i :: 0 <= i < |b.slabs[j].chunks| ==> !b.slabs[j].chunks[i].isUsed)
  {
    if k > 0 {
      CreateSlabsFresh(a, classes, k - 1);
      var p := CreateSlabs(a, classes, k - 1);
      var b := CreateSlabs(a, classes, k);
      forall j | 0 <= j < k - 1
        ensures b.slabs[j] == p.slabs[j]
      {
      }
    }
  }

  lemma {:induction false} SlabsFootprintIsChunkCount(k: nat)
    requires k <= ClassCount
    ensures SlabsFootprint(ClassTable, k) ==
      k * SlabRecordSize + ChunksOfClasses(k) * ChunkRecordSize + k * MegaByte
  {
    ClassTableBounds();
    if k > 0 {
      SlabsFootprintIsChunkCount(k - 1);
    }
  }

  /** After the 41 initial slabs the pool has room for the rest, each of the largest footprint. */
  lemma InitBudgetExact(a: ArenaView)
    requires a.possibleSlabs >= ClassCount && a.availSlabs == ClassCount
    requires a.poolSize == AllSize(a.possibleSlabs)
    requires a.firstFreeByte == ClassCount * SlabRecordSize + InitChunkCount * ChunkRecordSize + ClassCount * MegaByte
    ensures a.firstFreeByte + (a.possibleSlabs - a.availSlabs) * MaxSlabFootprint == a.poolSize
  {
  }

  /** The class table holds exactly the 41 classes get_chunk_size generates from 80. */
  lemma ClassTableIsClassSizes()
    ensures forall j :: 0 <= j < ClassCount ==> ClassSize(j) == ClassTable[j]
  {
    forall j | 0 <= j < ClassCount
      ensures ClassSize(j) == ClassTable[j]
    {
      ClassSizeMatchesTable(j);
    }
  }

  /**
   * init_slab_allocator succeeds exactly for a pool of at least 41 MB; it
   * then sets possible_slabs to the uncapped ceil(size / 1 MB), creates
   * one free slab per class from 80 up, and establishes the invariant with
   * the pool exactly used up once every possible slab has the largest
   * footprint.
   */
  lemma InitArenaInv(memPoolSize: nat)
    ensures InitArena(memPoolSize).Some? <==> memPoolSize >= ClassCount * MegaByte
    ensures InitArena(memPoolSize).Some? ==>
      InitArena(memPoolSize).value == InitialArena(NumberSlabClasses(memPoolSize))
  {
  }

  /**
   * The allocator init_slab_allocator builds keeps the invariant, with the
   * pool exactly used up once every other possible slab has the largest
   * footprint.
   */
  lemma InitialArenaInv(tn: nat)
    requires tn >= ClassCount
    ensures
      var a := InitialArena(tn);
      ArenaInv(a) && a.availSlabs == ClassCount &&
      a.possibleSlabs == tn && a.poolSize == AllSize(tn) &&
      a.firstFreeByte + (a.possibleSlabs - a.availSlabs) * MaxSlabFootprint == a.poolSize
  {
    InitialArenaShape(tn);
    var a := InitialArena(tn);
    InitBudgetExact(a);
  }

  lemma InitialArenaShape(tn: nat)
    requires tn >= ClassCount
    ensures
      var a := InitialArena(tn);
      Laid(a) && a.availSlabs == ClassCount && a.possibleSlabs == tn && a.poolSize == AllSize(tn) &&
      a.firstFreeByte == ClassCount * SlabRecordSize + InitChunkCount * ChunkRecordSize + ClassCount * MegaByte
  {
    ClassTableBounds();
    var a0 := ArenaView(0, tn, AllSize(tn), 0, []);
    CreateSlabsShape(a0, ClassTable, ClassCount);
    CreateSlabsLaid(a0, ClassTable, ClassCount);
    SlabsFootprintIsChunkCount(ClassCount);
    InitialChunkCount();
  }

  /** Its 41 slabs are of the classes 80 up to 573760, in order, with every chunk free. */
  lemma InitialArenaSlabs(tn: nat)
    requires tn >= ClassCount
    ensures
      var a := InitialArena(tn);
      |a.slabs| == ClassCount &&
      (forall j :: 0 <= j < ClassCount ==> a.slabs[j].chunkSize == ClassSize(j) && a.slabs[j].hasSpace) &&
      (forall j, i :: 0 <= j < ClassCount && 0 <= i < |a.slabs[j].chunks| ==> !a.slabs[j].chunks[i].isUsed)
  {
    ClassTableBounds();
    CreateSlabsFresh(ArenaView(0, tn, AllSize(tn), 0, []), ClassTable, ClassCount);
    ClassTableIsClassSizes();
  }
}
