// How my_malloc cuts an allocation into chunks on ROCm.
module ChunkPlan {
  import opened Alignment
  import opened Sequences

  const MB: nat := 1024 * 1024
  const DEFAULT_CHUNK: nat := 256 * MB

  // VLLM_ROCM_SLEEP_MEM_CHUNK_SIZE as strtoull leaves it: absent, not a number or out of range,
  // or a number of megabytes.
  datatype EnvValue = Unset | Unparsable | Megabytes(mb: nat)

  function MemcreateChunkSize(env: EnvValue): (bytes: nat)
    requires env.Megabytes? ==> env.mb < U64
    ensures MB <= bytes < U64 && Multiple(bytes, MB)
    ensures env.Megabytes? && env.mb > 0 && env.mb * MB < U64 ==> bytes == env.mb * MB
    ensures !(env.Megabytes? && env.mb > 0 && env.mb * MB < U64) ==> bytes == DEFAULT_CHUNK
  {
    assert IsProduct(256, MB, DEFAULT_CHUNK);
    if !env.Megabytes? || env.mb == 0 || env.mb > (U64 - 1) / MB then DEFAULT_CHUNK
    else
      assert IsProduct(env.mb, MB, env.mb * MB);
      env.mb * MB
  }

  // Where chunk i starts: the running sum that the map and unmap loops keep.
  function Offset(sizes: seq<nat>, i: nat): nat
    requires i <= |sizes|
  {
    if i == 0 then 0 else Offset(sizes, i - 1) + sizes[i - 1]
  }

  lemma {:induction false} OffsetOfPrefix(sizes: seq<nat>, i: nat, n: nat)
    requires i <= n <= |sizes|
    ensures Offset(sizes[..n], i) == Offset(sizes, i)
  {
    if i > 0 {
      OffsetOfPrefix(sizes, i - 1, n);
    }
  }

  lemma {:induction false} OffsetIsSum(sizes: seq<nat>)
    ensures Offset(sizes, |sizes|) == Sum(sizes)
  {
    if sizes != [] {
      var n := |sizes| - 1;
      OffsetIsSum(sizes[..n]);
      OffsetOfPrefix(sizes, n, n);
    }
  }

  ghost predicate Positive(sizes: seq<nat>) {
    forall i :: 0 <= i < |sizes| ==> sizes[i] > 0
  }

  lemma {:induction false} OffsetGrows(sizes: seq<nat>, i: nat, j: nat)
    requires i <= j <= |sizes|
    ensures Offset(sizes, i) <= Offset(sizes, j)
    ensures (forall m :: i <= m < j ==> sizes[m] > 0) && i < j ==> Offset(sizes, i) < Offset(sizes, j)
  {
    if i < j {
      OffsetGrows(sizes, i, j - 1);
    }
  }

  // The chunks tile the reservation: every byte of it lies in exactly one chunk.
  lemma {:induction false} EveryByteInOneChunk(sizes: seq<nat>, x: nat, n: nat) returns (i: nat)
    requires n <= |sizes| && x < Offset(sizes, n)
    ensures i < n && Offset(sizes, i) <= x < Offset(sizes, i + 1)
    ensures forall j: nat :: j < |sizes| && Offset(sizes, j) <= x < Offset(sizes, j + 1) ==> j == i
  {
    if x < Offset(sizes, n - 1) {
      i := EveryByteInOneChunk(sizes, x, n - 1);
    } else {
      i := n - 1;
      forall j: nat | j < |sizes| && Offset(sizes, j) <= x < Offset(sizes, j + 1) ensures j == i {
        if j < i {
          OffsetGrows(sizes, j + 1, i);
        } else if i < j {
          OffsetGrows(sizes, i + 1, j);
        }
      }
    }
  }

  datatype Plan =
    | DivideByZero                                // the aligned chunk size wrapped to 0
    | Plan(alignedSize: nat, alignedChunk: nat, sizes: seq<nat>)

  // The sum of the sizes computed so far, while full chunks are cut.
  lemma {:induction false} FullChunksOffset(sizes: seq<nat>, chunk: nat, i: nat)
    requires i <= |sizes| && forall j :: 0 <= j < i ==> sizes[j] == chunk
    ensures Offset(sizes, i) == i * chunk
  {
    if i > 0 {
      FullChunksOffset(sizes, chunk, i - 1);
      assert i * chunk == (i - 1) * chunk + chunk;
    }
  }

  // What the chunk sizes must be, whoever computes them.
  ghost predicate GoodChunks(sizes: seq<nat>, aligned: nat, chunk: nat, g: nat) {
    && (forall i :: 0 <= i < |sizes| ==> 0 < sizes[i] <= chunk && Multiple(sizes[i], g))
    && (forall i :: 0 <= i < |sizes| - 1 ==> sizes[i] == chunk)
    && Offset(sizes, |sizes|) == aligned
  }

  lemma MultipleDifference(x: nat, y: nat, g: nat, i: nat)
    requires Multiple(x, g) && Multiple(y, g) && i * y <= x
    ensures Multiple(x - i * y, g)
  {
    var p: nat :| IsProduct(p, g, x);
    var q: nat :| IsProduct(q, g, y);
    assert i * y == (i * q) * g;
    if p < i * q {
      MulMonotone(p + 1, i * q, g);
      assert (p + 1) * g == p * g + g;
      assert g == 0;
      assert IsProduct(0, g, x - i * y);
    } else {
      assert (p - i * q) * g == x - i * y;
      assert IsProduct(p - i * q, g, x - i * y);
    }
  }

  lemma ChunkBounds(aligned: nat, chunk: nat, i: nat)
    requires chunk > 0 && i < CeilDiv(aligned, chunk)
    ensures i * chunk < aligned
    ensures i + 1 < CeilDiv(aligned, chunk) ==> chunk <= aligned - i * chunk
    ensures i + 1 == CeilDiv(aligned, chunk) ==> aligned - i * chunk <= chunk
  {
    var n := CeilDiv(aligned, chunk);
    CeilBounds(aligned, chunk);
    if aligned == 0 {
      SmallQuotient(chunk - 1, chunk);
    }
    MulMonotone(i, n - 1, chunk);
    assert (i + 1) * chunk == i * chunk + chunk;
    if i + 1 < n {
      MulMonotone(i + 1, n - 1, chunk);
    }
  }

  // The size of chunk i, as the loop computes it.
  function ChunkAt(aligned: nat, chunk: nat, i: nat): nat {
    if i * chunk <= aligned then Min(aligned - i * chunk, chunk) else 0
  }

  lemma ChunkAtIsGood(aligned: nat, chunk: nat, g: nat, i: nat)
    requires chunk > 0 && i < CeilDiv(aligned, chunk) && Multiple(aligned, g) && Multiple(chunk, g)
    ensures i * chunk <= aligned
    ensures 0 < ChunkAt(aligned, chunk, i) <= chunk && Multiple(ChunkAt(aligned, chunk, i), g)
    ensures i + 1 < CeilDiv(aligned, chunk) ==> ChunkAt(aligned, chunk, i) == chunk
    ensures i + 1 == CeilDiv(aligned, chunk) ==> ChunkAt(aligned, chunk, i) == aligned - i * chunk
  {
    ChunkBounds(aligned, chunk, i);
    MultipleDifference(aligned, chunk, g, i);
  }

  lemma LastChunkCompletes(sizes: seq<nat>, aligned: nat, chunk: nat, g: nat)
    requires chunk > 0 && Multiple(aligned, g) && Multiple(chunk, g)
    requires |sizes| == CeilDiv(aligned, chunk)
    requires forall j :: 0 <= j < |sizes| ==> sizes[j] == ChunkAt(aligned, chunk, j)
    ensures GoodChunks(sizes, aligned, chunk, g)
  {
    var n := |sizes|;
    forall j | 0 <= j < n
      ensures 0 < sizes[j] <= chunk && Multiple(sizes[j], g) && (j + 1 < n ==> sizes[j] == chunk)
    {
      ChunkAtIsGood(aligned, chunk, g, j);
    }
    if n > 0 {
      ChunkAtIsGood(aligned, chunk, g, n - 1);
      FullChunksOffset(sizes, chunk, n - 1);
    } else {
      CeilBounds(aligned, chunk);
    }
  }

  method FillSizes(aligned: nat, chunk: nat, n: nat, ghost g: nat) returns (sizes: seq<nat>)
    requires chunk > 0 && Multiple(aligned, g) && Multiple(chunk, g)
    requires n == 0 || n == CeilDiv(aligned, chunk)
    ensures |sizes| == n
    ensures n == CeilDiv(aligned, chunk) ==> GoodChunks(sizes, aligned, chunk, g)
  {
    var chunkSizes := new nat[n];
    for i := 0 to n
      invariant forall j :: 0 <= j < i ==> chunkSizes[j] == ChunkAt(aligned, chunk, j)
    {
      ChunkAtIsGood(aligned, chunk, g, i);
      chunkSizes[i] := Min(aligned - i * chunk, chunk);
    }
    sizes := chunkSizes[..];
    if n == CeilDiv(aligned, chunk) {
      LastChunkCompletes(sizes, aligned, chunk, g);
    }
  }

  // The number of chunks is right, or no chunk at all.
  lemma ChunkCount(aligned: nat, chunk: nat)
    requires 0 < chunk < U64 && aligned < U64
    ensures CeilDiv64(aligned, chunk)
         == (if aligned + chunk - 1 < U64 then CeilDiv(aligned, chunk) else 0)
    ensures aligned == 0 ==> CeilDiv64(aligned, chunk) == 0
  {
    if aligned > 0 {
      CeilDiv64Exact(aligned, chunk);
    } else {
      SmallQuotient(chunk - 1, chunk);
      assert (chunk - 1) % U64 == chunk - 1;
    }
  }

  lemma AlignedFacts(x: nat, g: nat)
    requires x < U64 && 0 < g < U64
    ensures AlignUp64(x, g) == (if x + g - 1 < U64 then AlignUp(x, g) else 0)
    ensures Multiple(AlignUp64(x, g), g) && AlignUp64(x, g) < U64
    ensures x > 0 ==> (AlignUp64(x, g) == 0 <==> x + g - 1 >= U64)
  {
    AlignUp64Exact(x, g);
    AlignUpIsLeast(x, g);
    assert IsProduct(0, g, 0);
  }

  // No sum on the way to the chunk sizes wraps.
  predicate FitsWords(size: nat, granularity: nat, env: EnvValue)
    requires granularity > 0 && (env.Megabytes? ==> env.mb < U64)
  {
    && size + granularity - 1 < U64
    && MemcreateChunkSize(env) + granularity - 1 < U64
    && AlignUp(size, granularity) + AlignUp(MemcreateChunkSize(env), granularity) - 1 < U64
  }

  // Without chunks nothing of a wrapped request is covered.
  lemma WrappedIsEmpty(size: nat, granularity: nat, chunk: nat)
    requires size < U64 && 0 < granularity < U64 && 0 < chunk < U64
    requires size + granularity - 1 >= U64 || AlignUp(size, granularity) + chunk - 1 >= U64
    ensures AlignUp(size, granularity) > 0
  {
    AlignUpIsLeast(size, granularity);
    if size == 0 {
      AlignedIsFixed(0, granularity);
      assert IsProduct(0, granularity, 0);
    }
  }

  // Cuts an allocation of `size` bytes. All words are 64 bits wide, so three sums can wrap. When
  // none does, the chunks are positive multiples of the granularity, none above the aligned
  // chunk size, as many as the ceiling quotient, and they add up to the aligned size.
  method PlanChunks(size: nat, granularity: nat, env: EnvValue) returns (plan: Plan)
    requires size < U64 && 0 < granularity < U64
    requires env.Megabytes? ==> env.mb < U64
    ensures plan.DivideByZero? <==> MemcreateChunkSize(env) + granularity - 1 >= U64
    ensures plan.Plan? ==> plan.alignedChunk > 0 && plan.alignedSize == AlignUp64(size, granularity)
    ensures plan.Plan? ==> plan.alignedChunk == AlignUp(MemcreateChunkSize(env), granularity)
    ensures plan.Plan? && FitsWords(size, granularity, env) ==>
              && plan.alignedSize == AlignUp(size, granularity)
              && |plan.sizes| == CeilDiv(plan.alignedSize, plan.alignedChunk)
              && GoodChunks(plan.sizes, plan.alignedSize, plan.alignedChunk, granularity)
    ensures plan.Plan? && !FitsWords(size, granularity, env) ==> plan.sizes == []
    ensures plan.Plan? ==>
              (Offset(plan.sizes, |plan.sizes|) == AlignUp(size, granularity) <==> FitsWords(size, granularity, env))
  {
    var aligned := AlignUp64(size, granularity);
    var base := MemcreateChunkSize(env);
    var chunk := AlignUp64(base, granularity);
    AlignedFacts(size, granularity);
    AlignedFacts(base, granularity);
    if chunk == 0 {
      return DivideByZero;
    }
    var n := CeilDiv64(aligned, chunk);
    ChunkCount(aligned, chunk);
    var sizes := FillSizes(aligned, chunk, n, granularity);
    if !FitsWords(size, granularity, env) {
      WrappedIsEmpty(size, granularity, chunk);
    }
    plan := Plan(aligned, chunk, sizes);
  }

  // Both wraps happen: with a granule of 2 MB, the largest chunk size that can be configured
  // divides by zero, and the next smaller one cuts 4 MB into no chunks at all.
  lemma HugeChunksWrap()
    ensures AlignUp64(MemcreateChunkSize(Megabytes(U64 / MB - 1)), 2 * MB) == 0
    ensures var chunk := AlignUp64(MemcreateChunkSize(Megabytes(U64 / MB - 2)), 2 * MB);
            chunk > 0 && CeilDiv64(4 * MB, chunk) == 0
  {
    AlignedFacts(U64 - MB, 2 * MB);
    AlignedFacts(U64 - 2 * MB, 2 * MB);
    ChunkCount(4 * MB, AlignUp64(U64 - 2 * MB, 2 * MB));
  }
}
