// my_malloc and my_free, which PyTorch calls, and what one undoes of the other.
module AllocatorMalloc {
  import opened Alignment
  import opened ChunkPlan
  import opened VmDriver
  import opened Allocator
  import opened AllocatorEntry

  datatype Callback = Missing | Raises | Returns

  datatype MallocResult =
    | DriverRefused                             // before anything was reserved
    | Crashed(addr: nat, granularity: nat)      // the process died of a division by zero
    | Abandoned(addr: nat, granularity: nat)    // reserved, then given up without freeing it
    | Failed(addr: nat, granularity: nat, plan: Plan, fate: Fate, freed: nat)   // create_and_map failed
    | Pointer(addr: nat, granularity: nat, plan: Plan)

  // my_malloc. The latch is sticky: once set, every call is refused before it touches the
  // driver's memory. The chunks cover the request exactly when no 64-bit sum wraps. When one does,
  // no pointer comes back: a size that rounds up to 0 is refused by the reserve call, a chunk size
  // that wraps kills the process, and without chunks the set-access call fails on an unmapped range.
  method MyMalloc(alloc: Allocator, size: nat, env: EnvValue, callback: Callback, heapExhausted: bool)
    returns (r: MallocResult, handles: array<nat>)
    requires size < U64 && (env.Megabytes? ==> env.mb < U64)
    modifies alloc`errorCode, alloc.driver
    ensures old(alloc.errorCode) != 0 ==> r.DriverRefused?
    ensures old(alloc.driver.log) <= alloc.driver.log
    ensures r.DriverRefused? || r.Failed? <==>
              old(alloc.errorCode) != 0 || FailedSince(alloc.driver.log, |old(alloc.driver.log)|)
    ensures r.DriverRefused? ==> alloc.errorCode != 0 && alloc.driver.reserved == old(alloc.driver.reserved)
    ensures r.DriverRefused? || r.Crashed? || r.Abandoned? ==>
              alloc.driver.live == old(alloc.driver.live) && alloc.driver.mapped == old(alloc.driver.mapped)
    ensures !r.DriverRefused? ==>
              && 0 < r.granularity < U64 && AlignUp64(size, r.granularity) > 0
              && old(alloc.driver.Unreserved(r.addr, AlignUp64(size, r.granularity)))
              && (r.Crashed? <==> MemcreateChunkSize(env) + r.granularity - 1 >= U64)
              && (r.Abandoned? <==> !r.Crashed? && (heapExhausted || callback != Returns))
              && (alloc.errorCode != 0 <==> r.Failed?)
              && alloc.driver.reserved
                 == if r.Failed? && r.freed == 0 then old(alloc.driver.reserved)
                    else old(alloc.driver.reserved)[r.addr := AlignUp64(size, r.granularity)]
    ensures r.Pointer? ==> FitsWords(size, r.granularity, env)
    ensures r.Failed? || r.Pointer? ==>
              && r.plan.Plan? && handles.Length == |r.plan.sizes|
              && r.plan.alignedSize == AlignUp64(size, r.granularity)
              && r.plan.alignedChunk == AlignUp(MemcreateChunkSize(env), r.granularity)
              && (Offset(r.plan.sizes, |r.plan.sizes|) == AlignUp(size, r.granularity)
                  <==> FitsWords(size, r.granularity, env))
              && (FitsWords(size, r.granularity, env) ==>
                    GoodChunks(r.plan.sizes, r.plan.alignedSize, r.plan.alignedChunk, r.granularity))
              && (!FitsWords(size, r.granularity, env) ==> r.plan.sizes == [])
    ensures r.Failed? ==>
              Leftovers(old(alloc.driver.live), old(alloc.driver.mapped), alloc.driver.live, alloc.driver.mapped,
                        r.addr, r.plan.sizes, handles[..], r.fate)
    ensures r.Failed? ==>
              var at := |old(alloc.driver.log)| + 3;   // after context, granularity and reserve
              && at < |alloc.driver.log| && alloc.driver.log[at].Context?
              && (r.fate.Latched? <==> alloc.driver.log[at].status != 0)
    ensures r.Failed? ==>
              alloc.driver.log[|alloc.driver.log| - 1] == AddressFree(r.addr, AlignUp64(size, r.granularity), r.freed)
    ensures r.Pointer? ==>
              AllMapped(old(alloc.driver.live), old(alloc.driver.mapped), alloc.driver.live, alloc.driver.mapped,
                        r.addr, r.plan.sizes, handles[..])
    ensures r.Pointer? ==>
              && |alloc.driver.log| > |old(alloc.driver.log)| + 3
              && Transcript(alloc.driver.log[|old(alloc.driver.log)| + 4..], AlignUp64(size, r.granularity), r.addr,
                            r.plan.sizes, handles[..], Done, 0)
  {
    handles := new nat[0];
    var granularity, addr := Reserve(alloc, size);
    ghost var log1 := alloc.driver.log;
    if alloc.errorCode != 0 {
      return DriverRefused, handles;
    }
    var plan := PlanChunks(size, granularity, env);
    if plan.DivideByZero? {
      return Crashed(addr, granularity), handles;
    }
    if heapExhausted || callback != Returns {
      return Abandoned(addr, granularity), handles;
    }
    r, handles := Populate(alloc, addr, granularity, plan);
    FailedSplit(log1, alloc.driver.log, |old(alloc.driver.log)|);
  }

  // A range that was free and is covered now has chunks in it.
  lemma NoPointerWithoutChunks(mapped0: map<nat, Mapping>, mapped: map<nat, Mapping>, addr: nat, size: nat,
                               sizes: seq<nat>, handles: seq<nat>)
    requires size > 0 && |handles| == |sizes| && Covered(mapped, addr, size)
    requires forall a :: a in mapped0 ==> addr + size <= a || a + mapped0[a].size <= addr
    requires mapped == mapped0 + Tiles(addr, sizes, handles, |sizes|)
    ensures sizes != []
  {
    assert IsMapped(mapped, addr);
    var a :| a in mapped && a <= addr < a + mapped[a].size;
    assert a !in mapped0 || mapped[a] != mapped0[a];
  }

  // The first part of my_malloc: an aligned range of addresses, unless the latch is or gets set.
  method Reserve(alloc: Allocator, size: nat) returns (granularity: nat, addr: nat)
    requires size < U64
    modifies alloc`errorCode, alloc.driver`reserved, alloc.driver`log
    ensures alloc.errorCode != 0 <==> old(alloc.errorCode) != 0 || FailedSince(alloc.driver.log, |old(alloc.driver.log)|)
    ensures old(alloc.driver.log) <= alloc.driver.log
    ensures alloc.errorCode != 0 ==> alloc.driver.reserved == old(alloc.driver.reserved)
    ensures alloc.errorCode == 0 ==>
              && 0 < granularity < U64 && AlignUp64(size, granularity) > 0
              && old(alloc.driver.Unreserved(addr, AlignUp64(size, granularity)))
              && old(alloc.driver.Free(addr, AlignUp64(size, granularity)))
              && alloc.driver.reserved == old(alloc.driver.reserved)[addr := AlignUp64(size, granularity)]
              && alloc.driver.log == old(alloc.driver.log)
                                     + [Context(0), Granularity(0), VmDriver.Reserve(AlignUp64(size, granularity), 0)]
  {
    addr := 0;
    ghost var n := |alloc.driver.log|;
    var context := alloc.driver.EnsureContext();
    alloc.Check(context);
    var status;
    status, granularity := alloc.driver.GetAllocationGranularity();
    alloc.Check(status);
    assert alloc.driver.log[n] == Context(context) && alloc.driver.log[n + 1] == Granularity(status);
    if alloc.errorCode != 0 {
      return;
    }
    status, addr := alloc.driver.AddressReserve(AlignUp64(size, granularity));
    alloc.Check(status);
    assert alloc.driver.log[n + 2].status == status;
  }

  // The last part: create and map, and give the range of addresses back if that fails.
  method Populate(alloc: Allocator, addr: nat, granularity: nat, plan: Plan) returns (r: MallocResult, handles: array<nat>)
    requires alloc.errorCode == 0 && plan.Plan? && alloc.driver.Free(addr, plan.alignedSize)
    modifies alloc`errorCode, alloc.driver
    ensures r.Failed? || r.Pointer?
    ensures old(alloc.driver.log) <= alloc.driver.log
    ensures r.Failed? <==> FailedSince(alloc.driver.log, |old(alloc.driver.log)|)
    ensures r.Failed? ==>
              && |alloc.driver.log| > 0
              && alloc.driver.log[|alloc.driver.log| - 1] == AddressFree(addr, plan.alignedSize, r.freed)
    ensures r.Failed? ==>
              var at := |old(alloc.driver.log)|;
              && at < |alloc.driver.log| && alloc.driver.log[at].Context?
              && (r.fate.Latched? <==> alloc.driver.log[at].status != 0)
    ensures r.Pointer? ==> plan.sizes != []
    ensures r.addr == addr && r.granularity == granularity && r.plan == plan && handles.Length == |plan.sizes|
    ensures alloc.errorCode != 0 <==> r.Failed?
    ensures alloc.driver.reserved
         == if r.Failed? && r.freed == 0 then old(alloc.driver.reserved) - {addr} else old(alloc.driver.reserved)
    ensures r.Failed? ==>
              Leftovers(old(alloc.driver.live), old(alloc.driver.mapped), alloc.driver.live, alloc.driver.mapped,
                        addr, plan.sizes, handles[..], r.fate)
    ensures r.Pointer? ==>
              AllMapped(old(alloc.driver.live), old(alloc.driver.mapped), alloc.driver.live, alloc.driver.mapped,
                        addr, plan.sizes, handles[..])
    ensures r.Pointer? ==>
              && |alloc.driver.log| > |old(alloc.driver.log)|
              && Transcript(alloc.driver.log[|old(alloc.driver.log)| + 1..], plan.alignedSize, addr, plan.sizes,
                            handles[..], Done, 0)
  {
    handles := new nat[|plan.sizes|];
    var fate := alloc.CreateAndMap(plan.alignedSize, addr, handles, plan.sizes);
    if alloc.errorCode != 0 {
      ghost var fault;
      var status;
      ghost var log1 := alloc.driver.log;
      status, fault := alloc.driver.FreeAddress(addr, plan.alignedSize);
      alloc.Check(status);
      FailedSplit(log1, alloc.driver.log, |old(alloc.driver.log)|);
      return Failed(addr, granularity, plan, fate, status), handles;
    }
    NoPointerWithoutChunks(old(alloc.driver.mapped), alloc.driver.mapped, addr, plan.alignedSize, plan.sizes, handles[..]);
    r := Pointer(addr, granularity, plan);
  }

  // What the free callback gives back: the record of the allocation, if all goes well.
  datatype FreeReply =
    | NoCallback
    | Malformed
    | Record(base: nat, handles: array<nat>, sizes: seq<nat>)

  datatype FreeResult = Skipped | Freed(unmaps: seq<nat>, releases: seq<nat>, status: nat)

  // my_free does nothing without a usable record. Otherwise it unmaps and releases best-effort,
  // then frees the reservation with the size the caller asked for.
  method MyFree(alloc: Allocator, size: nat, reply: FreeReply, heapExhausted: bool)
    returns (r: FreeResult, ghost fault: bool)
    requires reply.Record? ==> reply.handles.Length == |reply.sizes|
    modifies alloc`errorCode, alloc.driver
    ensures r.Freed? <==> reply.Record? && !heapExhausted
    ensures r.Skipped? ==>
              && alloc.errorCode == old(alloc.errorCode) && alloc.driver.live == old(alloc.driver.live)
              && alloc.driver.mapped == old(alloc.driver.mapped) && alloc.driver.reserved == old(alloc.driver.reserved)
    ensures r.Skipped? ==> alloc.driver.log == old(alloc.driver.log)
    ensures r.Freed? ==>
              && |r.unmaps| == |r.releases| == |reply.sizes|
              && |alloc.driver.log| > |old(alloc.driver.log)|
              && alloc.driver.log == old(alloc.driver.log) + [Context(alloc.driver.log[|old(alloc.driver.log)|].status)]
                                     + UnmapCalls(reply.base, reply.sizes, r.unmaps)
                                     + ReleaseCalls(reply.handles[..], r.releases)
                                     + [AddressFree(reply.base, size, r.status)]
              && Unmapped(reply.base, reply.sizes, r.unmaps) <= old(alloc.driver.mapped).Keys
              && Released(reply.handles[..], r.releases) <= old(alloc.driver.live)
              && alloc.driver.mapped == old(alloc.driver.mapped) - Unmapped(reply.base, reply.sizes, r.unmaps)
              && alloc.driver.live == old(alloc.driver.live) - Released(reply.handles[..], r.releases)
              && (r.status == 0 <==> old(alloc.driver.Freeable(reply.base, size)) && !fault)
              && (fault ==> old(alloc.driver.Freeable(reply.base, size)))
              && (r.status != 0 ==> alloc.errorCode == r.status)
              && (FailedSince(alloc.driver.log, |old(alloc.driver.log)|)
                  <==> alloc.driver.log[|old(alloc.driver.log)|].status != 0
                       || !AllZero(r.unmaps) || !AllZero(r.releases) || r.status != 0)
              && alloc.driver.reserved
                 == if r.status == 0 then old(alloc.driver.reserved) - {reply.base} else old(alloc.driver.reserved)
  {
    fault := false;
    if !reply.Record? || heapExhausted {
      return Skipped, false;
    }
    var context, unmaps, releases := alloc.UnmapAndRelease(reply.base, reply.handles, reply.sizes);
    var status;
    ghost var log1 := alloc.driver.log;
    status, fault := alloc.driver.FreeAddress(reply.base, size);
    alloc.Check(status);
    FailedSplit(log1, alloc.driver.log, |old(alloc.driver.log)|);
    assert alloc.driver.log[|log1|].status == status;
    r := Freed(unmaps, releases, status);
  }

  // The caller's size is the reserved size exactly when the granularity divides it and the
  // rounding did not wrap.
  lemma FreeMatchesReservation(size: nat, granularity: nat)
    requires size < U64 && 0 < granularity < U64
    ensures AlignUp64(size, granularity) == size <==> Multiple(size, granularity) && size + granularity - 1 < U64
  {
    AlignUp64Exact(size, granularity);
    AlignedIsFixed(size, granularity);
  }

  // With a granularity that divides the word, such as a power of two, multiples never wrap.
  lemma MultiplesFit(size: nat, granularity: nat)
    requires size < U64 && Multiple(size, granularity) && Multiple(U64, granularity)
    ensures size + granularity - 1 < U64
  {
    var p: nat :| IsProduct(p, granularity, size);
    var q: nat :| IsProduct(q, granularity, U64);
    MulOrder(q, p, granularity);
    MulOrder(p + 1, q, granularity);
    NextMultiple(p, granularity);
  }

  // my_malloc, then my_free of the pointer with the size that was asked for. The driver is asked
  // to take back what it reserved exactly when the granularity divides the size (and the rounding
  // did not wrap), and `fault` is the driver failing such a request. If it is refused, the latch is
  // set, so every later my_malloc is refused. If no call fails, the driver is as it was before.
  method MallocThenFree(alloc: Allocator, size: nat, env: EnvValue)
    returns (r: MallocResult, f: FreeResult, ghost fault: bool)
    requires size < U64 && (env.Megabytes? ==> env.mb < U64)
    modifies alloc`errorCode, alloc.driver
    ensures f.Freed? <==> r.Pointer?
    ensures r.Pointer? ==>
              && 0 < r.granularity < U64
              && (f.status == 0 <==>
                    Multiple(size, r.granularity) && size + r.granularity - 1 < U64 && !fault)
    ensures r.Pointer? && fault ==> Multiple(size, r.granularity) && size + r.granularity - 1 < U64
    ensures r.Pointer? && f.status != 0 ==> alloc.errorCode != 0
    ensures r.Pointer? && f.status == 0 ==> alloc.driver.reserved == old(alloc.driver.reserved)
    ensures r.Pointer? && AllZero(f.unmaps) && AllZero(f.releases) ==>
              alloc.driver.live == old(alloc.driver.live) && alloc.driver.mapped == old(alloc.driver.mapped)
    ensures r.Pointer? && f.status != 0 ==>
              r.addr in alloc.driver.reserved && alloc.driver.reserved[r.addr] == AlignUp64(size, r.granularity)
  {
    var handles;
    r, handles := MyMalloc(alloc, size, env, Returns, false);
    f, fault := Skipped, false;
    if r.Pointer? {
      ghost var hs, sizes := handles[..], r.plan.sizes;
      f, fault := MyFree(alloc, size, Record(r.addr, handles, r.plan.sizes), false);
      FreeMatchesReservation(size, r.granularity);
      if AllZero(f.unmaps) && AllZero(f.releases) {
        EverythingUnmapped(r.addr, sizes, f.unmaps);
        EverythingReleased(hs, f.releases);
        TilesKeys(r.addr, sizes, hs, |sizes|);
      }
    }
  }

  // One byte is reserved as a whole granule of 2 MB, so it cannot be given back.
  lemma OneByteIsNotFreed()
    ensures !Multiple(1, 2 * MB) && AlignUp64(1, 2 * MB) == 2 * MB
  {
    FreeMatchesReservation(1, 2 * MB);
  }
}
