/**
 * Size-class arithmetic of the slab allocator: the chunk sizes the slabs
 * serve, how many chunks fit in one 1 MB slab, how many slabs a pool holds,
 * and the rounding of a request up to its class.
 *
 * The C code computes `(size_t)(1.25 * x)`, `floor(MB / cs)` and
 * `ceil(n / MB)` in floating point; for the magnitudes involved these are
 * exact, so the model uses `(5 * x) / 4`, `MegaByte / cs` and a ceiling
 * division on integers.
 */
module SizeClasses {

  const MegaByte: nat := 1048576

  /** The first class: slab 0 always serves 80-byte chunks. */
  const MinClass: nat := 80

  /** The largest class, returned for every request at or above it. */
  const MaxClass: nat := 573760

  /** Classes built at initialisation (classes 0 to 40). */
  const ClassCount: nat := 41

  /** Sum of the chunk counts of the 41 initial slabs (`init_chunk_count`). */
  const InitChunkCount: nat := 67377

  /** Chunks in a slab of the smallest class (the most any slab has). */
  const MaxChunksPerSlab: nat := 13107

  /** get_number_chunks: how many chunks of `chunkSize` bytes fit in 1 MB. */
  function GetNumberChunks(chunkSize: nat): (n: nat)
    requires chunkSize > 0
    ensures n * chunkSize <= MegaByte < (n + 1) * chunkSize
  {
    MegaByte / chunkSize
  }

  /**
   * get_chunk_size: the class after `lastClassSize`, 1.25 times as large and
   * rounded to the nearest multiple of 8 (a remainder of exactly 4 rounds down).
   */
  function GetChunkSize(lastClassSize: nat): (r: nat)
    ensures r % 8 == 0
    ensures (5 * lastClassSize) / 4 - 4 <= r <= (5 * lastClassSize) / 4 + 3
    ensures lastClassSize >= MinClass ==> r > lastClassSize
  {
    var newSize := (5 * lastClassSize) / 4;
    var rem := newSize % 8;
    if rem > 4 then newSize + (8 - rem) else newSize - rem
  }

  /** The size of class `k`, built from 80 by repeated `get_chunk_size`. */
  function ClassSize(k: nat): (r: nat)
    ensures r >= MinClass && r % 8 == 0
  {
    if k == 0 then MinClass else GetChunkSize(ClassSize(k - 1))
  }

  /** The 41 class sizes written out, a reference table for `ClassSize`. */
  const ClassTable: seq<nat> := [
    80, 96, 120, 152, 192, 240, 296, 368,
    456, 568, 712, 888, 1112, 1392, 1736, 2168,
    2712, 3392, 4240, 5296, 6616, 8272, 10336, 12920,
    16152, 20192, 25240, 31552, 39440, 49296, 61616, 77016,
    96272, 120336, 150416, 188016, 235016, 293768, 367208, 459008,
    573760
  ]

  /** Each entry of the class table is get_chunk_size of the one before it. */
  lemma TableSteps()
    ensures |ClassTable| == ClassCount && ClassTable[0] == MinClass
    ensures forall i :: 0 <= i < ClassCount - 1 ==> GetChunkSize(ClassTable[i]) == ClassTable[i + 1]
  {
    TableSteps0();
    TableSteps1();
    TableSteps2();
    TableSteps3();
  }

  lemma TableSteps0()
    ensures forall i :: 0 <= i < 10 ==> GetChunkSize(ClassTable[i]) == ClassTable[i + 1]
  {
    assert GetChunkSize(80) == 96;
    assert GetChunkSize(96) == 120;
    assert GetChunkSize(120) == 152;
    assert GetChunkSize(152) == 192;
    assert GetChunkSize(192) == 240;
    assert GetChunkSize(240) == 296;
    assert GetChunkSize(296) == 368;
    assert GetChunkSize(368) == 456;
    assert GetChunkSize(456) == 568;
    assert GetChunkSize(568) == 712;
  }

  lemma TableSteps1()
    ensures forall i :: 10 <= i < 20 ==> GetChunkSize(ClassTable[i]) == ClassTable[i + 1]
  {
    assert GetChunkSize(712) == 888;
    assert GetChunkSize(888) == 1112;
    assert GetChunkSize(1112) == 1392;
    assert GetChunkSize(1392) == 1736;
    assert GetChunkSize(1736) == 2168;
    assert GetChunkSize(2168) == 2712;
    assert GetChunkSize(2712) == 3392;
    assert GetChunkSize(3392) == 4240;
    assert GetChunkSize(4240) == 5296;
    assert GetChunkSize(5296) == 6616;
  }

  lemma TableSteps2()
    ensures forall i :: 20 <= i < 30 ==> GetChunkSize(ClassTable[i]) == ClassTable[i + 1]
  {
    assert GetChunkSize(6616) == 8272;
    assert GetChunkSize(8272) == 10336;
    assert GetChunkSize(10336) == 12920;
    assert GetChunkSize(12920) == 16152;
    assert GetChunkSize(16152) == 20192;
    assert GetChunkSize(20192) == 25240;
    assert GetChunkSize(25240) == 31552;
    assert GetChunkSize(31552) == 39440;
    assert GetChunkSize(39440) == 49296;
    assert GetChunkSize(49296) == 61616;
  }

  lemma TableSteps3()
    ensures forall i :: 30 <= i < ClassCount - 1 ==> GetChunkSize(ClassTable[i]) == ClassTable[i + 1]
  {
    assert GetChunkSize(61616) == 77016;
    assert GetChunkSize(77016) == 96272;
    assert GetChunkSize(96272) == 120336;
    assert GetChunkSize(120336) == 150416;
    assert GetChunkSize(150416) == 188016;
    assert GetChunkSize(188016) == 235016;
    assert GetChunkSize(235016) == 293768;
    assert GetChunkSize(293768) == 367208;
    assert GetChunkSize(367208) == 459008;
    assert GetChunkSize(459008) == 573760;
  }

  /** The iterative definition agrees with the table on the 41 initial classes. */
  lemma {:induction false} ClassSizeMatchesTable(k: nat)
    requires k < ClassCount
    ensures ClassSize(k) == ClassTable[k]
  {
    TableSteps();
    if k > 0 {
      ClassSizeMatchesTable(k - 1);
    }
  }

  /** Class 40 is the largest class the allocator serves. */
  lemma LastClassIsMax()
    ensures ClassSize(ClassCount - 1) == MaxClass
  {
    ClassSizeMatchesTable(ClassCount - 1);
  }

  /** Classes strictly grow. */
  lemma {:induction false} ClassSizeIncreasing(i: nat, j: nat)
    requires i < j
    ensures ClassSize(i) < ClassSize(j)
  {
    if i < j - 1 {
      ClassSizeIncreasing(i, j - 1);
    }
  }

  /** `c` is the size of one of the 41 initial classes. */
  ghost predicate IsClassSize(c: nat)
  {
    exists k :: 0 <= k < ClassCount && ClassSize(k) == c
  }

  /** Sum of the chunk counts of classes 0 to k - 1. */
  function ChunksOfClasses(k: nat): nat
    requires k <= ClassCount
  {
    if k == 0 then 0 else ChunksOfClasses(k - 1) + GetNumberChunks(ClassTable[k - 1])
  }

  /** Running totals of the chunk counts of the initial classes. */
  const ChunkPrefixTable: seq<nat> := [
    0, 13107, 24029, 32767, 39665, 45126, 49495, 53037,
    55886, 58185, 60031, 61503, 62683, 63625, 64378, 64982,
    65465, 65851, 66160, 66407, 66604, 66762, 66888, 66989,
    67070, 67134, 67185, 67226, 67259, 67285, 67306, 67323,
    67336, 67346, 67354, 67360, 67365, 67369, 67372, 67374,
    67376, 67377
  ]

  /** Each running total is the one before it plus that class's chunk count. */
  lemma PrefixSteps()
    ensures |ChunkPrefixTable| == ClassCount + 1 && ChunkPrefixTable[0] == 0
    ensures forall i :: 0 <= i < ClassCount ==>
      ChunkPrefixTable[i] + GetNumberChunks(ClassTable[i]) == ChunkPrefixTable[i + 1]
  {
    PrefixStepsLow();
    PrefixStepsHigh();
  }

  lemma PrefixStepsLow()
    ensures forall i :: 0 <= i < 20 ==>
      ChunkPrefixTable[i] + GetNumberChunks(ClassTable[i]) == ChunkPrefixTable[i + 1]
  {
    assert 0 + GetNumberChunks(80) == 13107;
    assert 13107 + GetNumberChunks(96) == 24029;
    assert 24029 + GetNumberChunks(120) == 32767;
    assert 32767 + GetNumberChunks(152) == 39665;
    assert 39665 + GetNumberChunks(192) == 45126;
    assert 45126 + GetNumberChunks(240) == 49495;
    assert 49495 + GetNumberChunks(296) == 53037;
    assert 53037 + GetNumberChunks(368) == 55886;
    assert 55886 + GetNumberChunks(456) == 58185;
    assert 58185 + GetNumberChunks(568) == 60031;
    assert 60031 + GetNumberChunks(712) == 61503;
    assert 61503 + GetNumberChunks(888) == 62683;
    assert 62683 + GetNumberChunks(1112) == 63625;
    assert 63625 + GetNumberChunks(1392) == 64378;
    assert 64378 + GetNumberChunks(1736) == 64982;
    assert 64982 + GetNumberChunks(2168) == 65465;
    assert 65465 + GetNumberChunks(2712) == 65851;
    assert 65851 + GetNumberChunks(3392) == 66160;
    assert 66160 + GetNumberChunks(4240) == 66407;
    assert 66407 + GetNumberChunks(5296) == 66604;
  }

  lemma PrefixStepsHigh()
    ensures forall i :: 20 <= i < ClassCount ==>
      ChunkPrefixTable[i] + GetNumberChunks(ClassTable[i]) == ChunkPrefixTable[i + 1]
  {
    assert 66604 + GetNumberChunks(6616) == 66762;
    assert 66762 + GetNumberChunks(8272) == 66888;
    assert 66888 + GetNumberChunks(10336) == 66989;
    assert 66989 + GetNumberChunks(12920) == 67070;
    assert 67070 + GetNumberChunks(16152) == 67134;
    assert 67134 + GetNumberChunks(20192) == 67185;
    assert 67185 + GetNumberChunks(25240) == 67226;
    assert 67226 + GetNumberChunks(31552) == 67259;
    assert 67259 + GetNumberChunks(39440) == 67285;
    assert 67285 + GetNumberChunks(49296) == 67306;
    assert 67306 + GetNumberChunks(61616) == 67323;
    assert 67323 + GetNumberChunks(77016) == 67336;
    assert 67336 + GetNumberChunks(96272) == 67346;
    assert 67346 + GetNumberChunks(120336) == 67354;
    assert 67354 + GetNumberChunks(150416) == 67360;
    assert 67360 + GetNumberChunks(188016) == 67365;
    assert 67365 + GetNumberChunks(235016) == 67369;
    assert 67369 + GetNumberChunks(293768) == 67372;
    assert 67372 + GetNumberChunks(367208) == 67374;
    assert 67374 + GetNumberChunks(459008) == 67376;
    assert 67376 + GetNumberChunks(573760) == 67377;
  }

  lemma {:induction false} ChunksOfClassesMatchTable(k: nat)
    requires k <= ClassCount
    ensures ChunksOfClasses(k) == ChunkPrefixTable[k]
  {
    PrefixSteps();
    if k > 0 {
      ChunksOfClassesMatchTable(k - 1);
    }
  }

  /** The 41 initial slabs hold exactly `init_chunk_count` chunks. */
  lemma InitialChunkCount()
    ensures ChunksOfClasses(ClassCount) == InitChunkCount
  {
    ChunksOfClassesMatchTable(ClassCount);
  }

  /** No class holds more chunks than the smallest one. */
  lemma ChunksAtMostMax(chunkSize: nat)
    requires chunkSize >= MinClass
    ensures 1 <= chunkSize <= MegaByte ==> GetNumberChunks(chunkSize) >= 1
    ensures GetNumberChunks(chunkSize) <= MaxChunksPerSlab
  {
    var n := GetNumberChunks(chunkSize);
    MulMonotonic(n, MinClass, chunkSize);
    assert n == 0 ==> (n + 1) * chunkSize == chunkSize;
  }

  lemma MulMonotonic(n: nat, a: nat, b: nat)
    requires a <= b
    ensures n * a <= n * b
  {
  }

  /**
   * remainder_size: the bytes of a 1 MB slab left after its chunks; the C
   * code adds them to the last chunk's region.
   */
  function RemainderSize(chunkSize: nat): (r: nat)
    requires chunkSize > 0
    ensures GetNumberChunks(chunkSize) * chunkSize + r == MegaByte
    ensures r < chunkSize
  {
    MegaByte - GetNumberChunks(chunkSize) * chunkSize
  }

  /**
   * number_slab_classes: 0 for a pool below 41 MB, otherwise the number of
   * whole or partial megabytes in the pool.
   */
  function NumberSlabClasses(memPoolSize: nat): (tn: nat)
    ensures tn == 0 <==> memPoolSize < ClassCount * MegaByte
    ensures tn != 0 ==> tn >= ClassCount && (tn - 1) * MegaByte < memPoolSize <= tn * MegaByte
  {
    if memPoolSize < ClassCount * MegaByte then 0 else (memPoolSize + MegaByte - 1) / MegaByte
  }

  /**
   * The class that serves a request of `numBytes` bytes: the smallest class
   * at least that large, or the largest class for requests at or above it.
   */
  function ClassIndexFor(numBytes: int): (k: nat)
    ensures k < ClassCount
    ensures numBytes >= MaxClass ==> k == ClassCount - 1
    ensures numBytes < MaxClass ==> IsSmallestClassFor(numBytes, k)
  {
    if numBytes >= MaxClass then ClassCount - 1 else SmallestClassFrom(numBytes, 0)
  }

  /** Class `k` is at least `numBytes` and the class below it is not. */
  predicate IsSmallestClassFor(numBytes: int, k: nat)
  {
    numBytes <= ClassSize(k) && (k == 0 || ClassSize(k - 1) < numBytes)
  }

  function SmallestClassFrom(numBytes: int, k: nat): (r: nat)
    requires numBytes < MaxClass && k < ClassCount
    requires k == 0 || ClassSize(k - 1) < numBytes
    ensures k <= r < ClassCount && IsSmallestClassFor(numBytes, r)
    decreases ClassCount - k
  {
    if numBytes <= ClassSize(k) then k
    else LastClassIsMax(); SmallestClassFrom(numBytes, k + 1)
  }

  /** At most one class is the smallest one that fits a request. */
  lemma SmallestClassUnique(numBytes: int, a: nat, b: nat)
    requires IsSmallestClassFor(numBytes, a) && IsSmallestClassFor(numBytes, b)
    ensures a == b
  {
    if a < b {
      if a < b - 1 { ClassSizeIncreasing(a, b - 1); }
    } else if b < a {
      if b < a - 1 { ClassSizeIncreasing(b, a - 1); }
    }
  }

  /** The chunk size a request is rounded up to. */
  function ChunkSizeFor(numBytes: int): nat
  {
    ClassSize(ClassIndexFor(numBytes))
  }

  /**
   * The rounded size is a class no larger than any class that holds the
   * request; it holds the request unless the request exceeds 573760, in
   * which case it is 573760.
   */
  lemma ChunkSizeForFits(numBytes: int)
    ensures ChunkSizeFor(numBytes) <= MaxClass
    ensures numBytes <= MaxClass ==> numBytes <= ChunkSizeFor(numBytes)
    ensures numBytes >= MaxClass ==> ChunkSizeFor(numBytes) == MaxClass
    ensures forall j :: 0 <= j < ClassCount && numBytes <= ClassSize(j) ==> ChunkSizeFor(numBytes) <= ClassSize(j)
  {
    var k := ClassIndexFor(numBytes);
    LastClassIsMax();
    if k < ClassCount - 1 {
      ClassSizeIncreasing(k, ClassCount - 1);
    }
    forall j | 0 <= j < ClassCount && numBytes <= ClassSize(j)
      ensures ClassSize(k) <= ClassSize(j)
    {
      if numBytes < MaxClass {
        SmallestIsLeast(numBytes, k, j);
      } else if j < k {
        ClassSizeIncreasing(j, k);
      }
    }
  }

  /** The smallest fitting class is no larger than any fitting class. */
  lemma SmallestIsLeast(numBytes: int, k: nat, j: nat)
    requires IsSmallestClassFor(numBytes, k) && numBytes <= ClassSize(j)
    ensures ClassSize(k) <= ClassSize(j)
  {
    if j < k - 1 {
      ClassSizeIncreasing(j, k - 1);
    } else if k < j {
      ClassSizeIncreasing(k, j);
    }
  }

  /**
   * closest_chunk_size: walks the classes from 80 until one holds the
   * request; requests at or above 573760 get 573760 without the walk.
   */
  method ClosestChunkSize(numBytes: int) returns (csize: nat)
    requires numBytes >= 0
    ensures csize == ClassSize(ClassIndexFor(numBytes))
  {
    LastClassIsMax();
    if numBytes >= 573760 {
      return 573760;
    }
    csize := 80;
    ghost var k: nat := 0;
    while numBytes > csize
      invariant k < ClassCount && csize == ClassSize(k)
      invariant k == 0 || ClassSize(k - 1) < numBytes
      decreases ClassCount - k
    {
      csize := GetChunkSize(csize);
      k := k + 1;
    }
    SmallestClassUnique(numBytes, k, ClassIndexFor(numBytes));
  }
}
