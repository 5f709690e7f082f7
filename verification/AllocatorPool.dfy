// The Python memory pool on top of the allocator: it records every allocation, puts all of them to
// sleep and wakes them up by tag. Over any history without a failing driver call it owns exactly
// what the driver holds.
module AllocatorPool {
  import opened Options
  import opened Alignment
  import opened ChunkPlan
  import opened VmDriver
  import opened Allocator
  import opened AllocatorEntry
  import opened AllocatorMalloc
  import opened PoolAccounts

  // The cells that hold the handles of an allocation.
  method NewCells(handles: seq<nat>) returns (cells: array<nat>)
    ensures fresh(cells) && cells[..] == handles
  {
    cells := new nat[|handles|](i requires 0 <= i < |handles| => handles[i]);
  }

  // A wake that failed and undid everything it had done.
  ghost predicate Undone(fate: Fate) {
    match fate
    case Done => false
    case Latched(created) => !created
    case CreateFailed(_, _, releases) => AllZero(releases)
    case MapFailed(_, _, unmaps, releases) => AllZero(unmaps) && AllZero(releases)
    case AccessFailed(_) => false
  }

  lemma UndoneLeavesNothing(live0: set<nat>, mapped0: map<nat, Mapping>, live: set<nat>, mapped: map<nat, Mapping>,
                            addr: nat, sizes: seq<nat>, handles: seq<nat>, fate: Fate)
    requires |handles| == |sizes| && Leftovers(live0, mapped0, live, mapped, addr, sizes, handles, fate) && Undone(fate)
    ensures live == live0 && mapped == mapped0
  {
  }

  // The allocations with one of the tags; no tags stand for all of them.
  function Chosen(data: Records, tags: Option<set<string>>): (bs: set<nat>)
    ensures bs <= data.Keys && forall b :: b in data ==> (b in bs <==> tags == None || data[b].tag in tags.value)
  {
    set b | b in data && (tags == None || data[b].tag in tags.value)
  }

  // What is awake when all but `rest` of the allocations were put to sleep, each of which was awake.
  ghost predicate Slept(rest: set<nat>, awake0: set<nat>, all: set<nat>, awake: set<nat>) {
    forall b :: SleptAt(rest, awake0, all, awake, b)
  }

  ghost predicate SleptAt(rest: set<nat>, awake0: set<nat>, all: set<nat>, awake: set<nat>, b: nat) {
    && (b in all && b !in rest ==> b in awake0)
    && (b in awake <==> b in awake0 && (b in all ==> b in rest))
  }

  lemma SleptOneMore(rest: set<nat>, awake0: set<nat>, all: set<nat>, awake: set<nat>, b: nat)
    requires Slept(rest, awake0, all, awake) && b in rest && b in all
    ensures b in awake ==> Slept(rest - {b}, awake0, all, awake - {b})
  {
    var rest', awake' := rest - {b}, awake - {b};
    assert SleptAt(rest, awake0, all, awake, b);
    if b in awake {
      forall c ensures SleptAt(rest', awake0, all, awake', c) {
        assert SleptAt(rest, awake0, all, awake, c);
      }
    }
  }

  lemma AllSlept(awake0: set<nat>, all: set<nat>, awake: set<nat>)
    requires Slept({}, awake0, all, awake) && awake0 <= all
    ensures awake0 == all && awake == {}
  {
    forall b ensures (b in all ==> b in awake0) && b !in awake {
      assert SleptAt({}, awake0, all, awake, b);
    }
  }

  // What is awake when all but `rest` of the chosen allocations were woken.
  ghost predicate Woken(chosen: set<nat>, rest: set<nat>, awake0: set<nat>, awake: set<nat>) {
    forall b :: WokenAt(chosen, rest, awake0, awake, b)
  }

  ghost predicate WokenAt(chosen: set<nat>, rest: set<nat>, awake0: set<nat>, awake: set<nat>, b: nat) {
    && !(b in chosen && b !in rest && b in awake0)
    && (b in awake <==> b in awake0 || (b in chosen && b !in rest))
  }

  lemma WokenOneMore(chosen: set<nat>, rest: set<nat>, awake0: set<nat>, awake: set<nat>, b: nat)
    requires Woken(chosen, rest, awake0, awake) && b in rest && rest <= chosen
    ensures b in awake ==> b in awake0
    ensures b !in awake ==> Woken(chosen, rest - {b}, awake0, awake + {b})
  {
    var rest', awake' := rest - {b}, awake + {b};
    assert WokenAt(chosen, rest, awake0, awake, b);
    if b !in awake {
      forall c ensures WokenAt(chosen, rest', awake0, awake', c) {
        assert WokenAt(chosen, rest, awake0, awake, c);
      }
    }
  }

  lemma AllWoken(chosen: set<nat>, awake0: set<nat>, awake: set<nat>)
    requires Woken(chosen, {}, awake0, awake)
    ensures chosen !! awake0 && awake == awake0 + chosen
  {
    forall b ensures !(b in chosen && b in awake0) && (b in awake <==> b in awake0 + chosen) {
      assert WokenAt(chosen, {}, awake0, awake, b);
    }
  }

  class Pool {
    const alloc: Allocator
    var pointerToData: Records
    ghost var awake: set<nat>
    ghost var leaked: map<nat, nat>   // reservations that no record leads to any more

    constructor ()
      ensures Valid() && pointerToData == map[] && awake == {} && leaked == map[]
      ensures fresh(alloc) && fresh(alloc.driver) && alloc.errorCode == 0
    {
      alloc := new Allocator();
      pointerToData, awake, leaked := map[], {}, map[];
      new;
      NothingYet();
    }

    ghost predicate Valid()
      reads this, alloc, alloc.driver
    {
      Accounts(pointerToData, awake, leaked, alloc.driver.live, alloc.driver.mapped, alloc.driver.reserved)
    }

    // my_malloc with the pool's callback, which records the allocation before anything is mapped.
    // So a my_malloc that fails later leaves its record behind.
    method Malloc(size: nat, env: EnvValue, tag: string, heapExhausted: bool) returns (r: MallocResult)
      requires Valid() && size < U64 && (env.Megabytes? ==> env.mb < U64)
      modifies this, alloc`errorCode, alloc.driver
      ensures r.DriverRefused? || r.Failed? <==>
                old(alloc.errorCode) != 0 || FailedSince(alloc.driver.log, |old(alloc.driver.log)|)
      ensures r.Abandoned? ==> heapExhausted
      ensures r.DriverRefused? ==>
                Valid() && pointerToData == old(pointerToData) && awake == old(awake) && leaked == old(leaked)
      ensures r.Abandoned? ==>
                && Valid() && pointerToData == old(pointerToData) && awake == old(awake)
                && r.granularity > 0 && leaked == old(leaked)[r.addr := AlignUp64(size, r.granularity)]
      ensures r.Pointer? ==>
                && Valid() && r.addr !in old(pointerToData) && r.addr in pointerToData
                && pointerToData == old(pointerToData)[r.addr := pointerToData[r.addr]]
                && r.granularity > 0 && r.plan.Plan? && pointerToData[r.addr].size == AlignUp64(size, r.granularity) >= size
                && pointerToData[r.addr].tag == tag && pointerToData[r.addr].sizes == r.plan.sizes
                && FitsWords(size, r.granularity, env)
                && GoodChunks(r.plan.sizes, AlignUp64(size, r.granularity),
                              AlignUp(MemcreateChunkSize(env), r.granularity), r.granularity)
                && awake == old(awake) + {r.addr} && leaked == old(leaked)
      ensures r.Failed? ==>
                r.addr in pointerToData && (r.freed == 0 ==> r.addr !in alloc.driver.reserved)
    {
      var cells;
      r, cells := MyMalloc(alloc, size, env, Returns, heapExhausted);
      if r.Failed? {
        pointerToData := pointerToData[r.addr := Data(r.plan.alignedSize, cells[..], r.plan.sizes, tag)];
      } else if r.Abandoned? {
        leaked := leaked[r.addr := AlignUp64(size, r.granularity)];
        LeaveReservation(pointerToData, awake, old(leaked), old(alloc.driver.live), old(alloc.driver.mapped),
                         old(alloc.driver.reserved), r.addr, AlignUp64(size, r.granularity));
      } else if r.Pointer? {
        var data := Data(r.plan.alignedSize, cells[..], r.plan.sizes, tag);
        pointerToData := pointerToData[r.addr := data];
        awake := awake + {r.addr};
        AlignUp64Exact(size, r.granularity);
        NewAllocation(old(pointerToData), old(awake), leaked, old(alloc.driver.live), old(alloc.driver.mapped),
                      old(alloc.driver.reserved), r.addr, data);
      }
    }

    // my_free with the pool's callback, which drops the record. An address without a record is
    // ignored. If every unmap and release succeeds, the allocation was awake and is gone; its
    // reservation stays behind exactly when the driver did not take it back.
    method Free(ptr: nat, size: nat, heapExhausted: bool) returns (f: FreeResult, ghost fault: bool)
      requires Valid()
      modifies this, alloc`errorCode, alloc.driver
      ensures ptr !in old(pointerToData) ==>
                && f.Skipped? && Valid()
                && pointerToData == old(pointerToData) && awake == old(awake) && leaked == old(leaked)
      ensures pointerToData == old(pointerToData) - {ptr}
      ensures f.Freed? <==> ptr in old(pointerToData) && !heapExhausted
      ensures f.Freed? ==>
                && (f.status == 0 <==> old(alloc.driver.Freeable(ptr, size)) && !fault)
                && (fault ==> old(alloc.driver.Freeable(ptr, size)))
      ensures f.Freed? && !FailedSince(alloc.driver.log, |old(alloc.driver.log)|) ==>
                AllZero(f.unmaps) && AllZero(f.releases) && f.status == 0
      ensures f.Freed? && AllZero(f.unmaps) && AllZero(f.releases) ==>
                && Valid() && ptr in old(awake) && awake == old(awake) - {ptr}
                && leaked == if f.status == 0 then old(leaked) else old(leaked)[ptr := old(pointerToData)[ptr].size]
    {
      if ptr !in pointerToData {
        f, fault := MyFree(alloc, size, Malformed, false);
        assert pointerToData - {ptr} == pointerToData;
        return;
      }
      var data := pointerToData[ptr];
      RecordedIsReserved(pointerToData, awake, leaked, alloc.driver.live, alloc.driver.mapped, alloc.driver.reserved, ptr);
      pointerToData := pointerToData - {ptr};
      var cells := NewCells(data.handles);
      f, fault := MyFree(alloc, size, Record(ptr, cells, data.sizes), heapExhausted);
      if f.Freed? && AllZero(f.unmaps) && AllZero(f.releases) {
        EverythingUnmapped(ptr, data.sizes, f.unmaps);
        EverythingReleased(data.handles, f.releases);
        Drop(old(pointerToData), old(awake), old(leaked), old(alloc.driver.live), old(alloc.driver.mapped),
             old(alloc.driver.reserved), ptr);
        awake := awake - {ptr};
        if f.status != 0 {
          leaked := leaked[ptr := data.size];
        }
      }
    }

    // Puts one allocation to sleep. That raises unless it is awake.
    method SleepOne(ptr: nat) returns (raised: bool)
      requires Valid() && ptr in pointerToData
      modifies this`awake, alloc`errorCode, alloc.driver`live, alloc.driver`mapped, alloc.driver`log
      ensures raised <==> old(alloc.errorCode) != 0 || FailedSince(alloc.driver.log, |old(alloc.driver.log)|)
      ensures alloc.errorCode == 0 && old(alloc.driver.log) <= alloc.driver.log
      ensures !raised ==> Valid() && ptr in old(awake) && awake == old(awake) - {ptr}
    {
      var data := pointerToData[ptr];
      RecordedIsReserved(pointerToData, awake, leaked, alloc.driver.live, alloc.driver.mapped, alloc.driver.reserved, ptr);
      var cells := NewCells(data.handles);
      raised := PythonUnmapAndRelease(alloc, ptr, cells, data.sizes);
      if !raised {
        PutToSleep(pointerToData, awake, leaked, old(alloc.driver.live), old(alloc.driver.mapped),
                   alloc.driver.reserved, ptr);
        awake := awake - {ptr};
      }
    }

    // sleep: every recorded allocation, in any order.
    method Sleep() returns (raised: bool)
      requires Valid()
      modifies this`awake, alloc`errorCode, alloc.driver`live, alloc.driver`mapped, alloc.driver`log
      ensures raised <==>
                FailedSince(alloc.driver.log, |old(alloc.driver.log)|) || (old(alloc.errorCode) != 0 && pointerToData != map[])
      ensures old(alloc.driver.log) <= alloc.driver.log
      ensures pointerToData != map[] ==> alloc.errorCode == 0
      ensures !raised ==> Valid() && old(awake) == pointerToData.Keys && awake == {}
    {
      var rest := pointerToData.Keys;
      while rest != {}
        invariant Valid() && rest <= pointerToData.Keys
        invariant Slept(rest, old(awake), pointerToData.Keys, awake)
        invariant old(alloc.driver.log) <= alloc.driver.log && !FailedSince(alloc.driver.log, |old(alloc.driver.log)|)
        invariant alloc.errorCode == old(alloc.errorCode) && (rest != pointerToData.Keys ==> alloc.errorCode == 0)
        decreases |rest|
      {
        var ptr :| ptr in rest;
        ghost var log0 := alloc.driver.log;
        SleptOneMore(rest, old(awake), pointerToData.Keys, awake, ptr);
        raised := SleepOne(ptr);
        FailedSplit(log0, alloc.driver.log, |old(alloc.driver.log)|);
        if raised {
          return;
        }
        rest := rest - {ptr};
      }
      AllSlept(old(awake), pointerToData.Keys, awake);
      raised := false;
    }

    // Wakes one allocation. That raises if it is awake already, and then its record may have lost
    // its handles to those that were created in vain. If it was asleep and everything could be
    // undone, nothing has changed but the dead handles of its record.
    method WakeOne(ptr: nat) returns (raised: bool, fate: Fate)
      requires Valid() && ptr in pointerToData
      modifies this`awake, this`pointerToData, alloc`errorCode, alloc.driver`live, alloc.driver`mapped, alloc.driver`log
      ensures raised <==> !fate.Done?
      ensures raised <==> old(alloc.errorCode) != 0 || FailedSince(alloc.driver.log, |old(alloc.driver.log)|)
      ensures alloc.errorCode == 0 && old(alloc.driver.log) <= alloc.driver.log
      ensures ptr in pointerToData && pointerToData == old(pointerToData)[ptr := pointerToData[ptr]]
      ensures ptr in old(awake) ==> raised
      ensures ptr in old(awake) && fate.MapFailed? ==>
                HandleSet(pointerToData[ptr].handles) !! HandleSet(old(pointerToData)[ptr].handles)
      ensures SameShape(old(pointerToData), pointerToData)
      ensures !raised ==> Valid() && awake == old(awake) + {ptr}
      ensures !raised ==>
                && |alloc.driver.log| > |old(alloc.driver.log)|
                && |pointerToData[ptr].handles| == |pointerToData[ptr].sizes|
                && Transcript(alloc.driver.log[|old(alloc.driver.log)| + 1..], old(pointerToData)[ptr].size, ptr,
                              pointerToData[ptr].sizes, pointerToData[ptr].handles, Done, 0)
      ensures raised ==> awake == old(awake)
      ensures raised && Undone(fate) && ptr !in old(awake) ==> Valid()
    {
      var data := pointerToData[ptr];
      ghost var live0, mapped0, reserved := alloc.driver.live, alloc.driver.mapped, alloc.driver.reserved;
      RecordedIsReserved(pointerToData, awake, leaked, live0, mapped0, reserved, ptr);
      AwakeIsMapped(pointerToData, awake, leaked, live0, mapped0, reserved, ptr);
      var cells := NewCells(data.handles);
      raised, fate := PythonCreateAndMap(alloc, data.size, ptr, cells, data.sizes);
      ghost var data' := data.(handles := cells[..]);
      if !raised {
        TilesKeys(ptr, data.sizes, cells[..], |data.sizes|);
        assert ptr !in mapped0 && reserved[ptr := data'.size] == reserved;
        AddAllocation(pointerToData, awake, leaked, live0, mapped0, reserved, ptr, data');
        awake := awake + {ptr};
      } else if Undone(fate) && ptr !in awake {
        UndoneLeavesNothing(live0, mapped0, alloc.driver.live, alloc.driver.mapped, ptr, data.sizes, cells[..], fate);
        NewHandlesAsleep(pointerToData, awake, leaked, live0, mapped0, reserved, ptr, data');
      }
      pointerToData := pointerToData[ptr := data.(handles := cells[..])];
    }

    // wake_up: every recorded allocation with one of the tags, in any order.
    method WakeUp(tags: Option<set<string>>) returns (raised: bool, fate: Fate)
      requires Valid()
      modifies this`awake, this`pointerToData, alloc`errorCode, alloc.driver`live, alloc.driver`mapped, alloc.driver`log
      ensures raised <==>
                FailedSince(alloc.driver.log, |old(alloc.driver.log)|) || (old(alloc.errorCode) != 0 && Chosen(old(pointerToData), tags) != {})
      ensures old(alloc.driver.log) <= alloc.driver.log
      ensures Chosen(old(pointerToData), tags) != {} ==> alloc.errorCode == 0
      ensures SameShape(old(pointerToData), pointerToData)
      ensures !raised ==>
                && Valid() && Chosen(old(pointerToData), tags) !! old(awake)
                && awake == old(awake) + Chosen(old(pointerToData), tags)
      ensures raised && Undone(fate) && Chosen(old(pointerToData), tags) !! old(awake) ==> Valid()
    {
      raised, fate := WakeAll(Chosen(pointerToData, tags));
    }

    // Some allocations, in any order, up to the first that raises.
    method WakeAll(chosen: set<nat>) returns (raised: bool, fate: Fate)
      requires Valid() && chosen <= pointerToData.Keys
      modifies this`awake, this`pointerToData, alloc`errorCode, alloc.driver`live, alloc.driver`mapped, alloc.driver`log
      ensures raised <==>
                FailedSince(alloc.driver.log, |old(alloc.driver.log)|) || (old(alloc.errorCode) != 0 && chosen != {})
      ensures old(alloc.driver.log) <= alloc.driver.log
      ensures chosen != {} ==> alloc.errorCode == 0
      ensures SameShape(old(pointerToData), pointerToData)
      ensures !raised ==> Valid() && chosen !! old(awake) && awake == old(awake) + chosen
      ensures raised && Undone(fate) && chosen !! old(awake) ==> Valid()
    {
      var rest := chosen;
      fate := Done;
      while rest != {}
        invariant Valid() && rest <= chosen <= pointerToData.Keys && SameShape(old(pointerToData), pointerToData)
        invariant Woken(chosen, rest, old(awake), awake)
        invariant old(alloc.driver.log) <= alloc.driver.log && !FailedSince(alloc.driver.log, |old(alloc.driver.log)|)
        invariant alloc.errorCode == old(alloc.errorCode) && (rest != chosen ==> alloc.errorCode == 0)
        decreases |rest|
      {
        var ptr :| ptr in rest;
        ghost var before, log0 := pointerToData, alloc.driver.log;
        WokenOneMore(chosen, rest, old(awake), awake, ptr);
        raised, fate := WakeOne(ptr);
        FailedSplit(log0, alloc.driver.log, |old(alloc.driver.log)|);
        SameShapeTwice(old(pointerToData), before, pointerToData);
        if raised {
          return;
        }
        rest := rest - {ptr};
      }
      AllWoken(chosen, old(awake), awake);
      raised := false;
    }

    // Leaving the pool's context: an unused allocation is unmapped, released and forgotten, but
    // its reservation is not given back.
    method Trim(ptr: nat) returns (raised: bool)
      requires Valid()
      modifies this, alloc`errorCode, alloc.driver`live, alloc.driver`mapped, alloc.driver`log
      ensures ptr !in old(pointerToData) ==>
                && raised && Valid()
                && pointerToData == old(pointerToData) && awake == old(awake) && leaked == old(leaked)
      ensures raised <==>
                || ptr !in old(pointerToData) || old(alloc.errorCode) != 0
                || FailedSince(alloc.driver.log, |old(alloc.driver.log)|)
      ensures !raised ==>
                && Valid() && ptr in old(awake) && awake == old(awake) - {ptr}
                && pointerToData == old(pointerToData) - {ptr}
                && leaked == old(leaked)[ptr := old(pointerToData)[ptr].size]
    {
      if ptr !in pointerToData {
        return true;
      }
      raised := SleepOne(ptr);
      ghost var data, asleep := pointerToData[ptr], awake;
      if !raised {
        Forget(pointerToData, asleep, leaked, alloc.driver.live, alloc.driver.mapped, alloc.driver.reserved, ptr);
        leaked := leaked[ptr := data.size];
      }
      pointerToData := pointerToData - {ptr};
    }

    // Sleeping and waking up again puts every chunk back where it was, whatever the handles.
    method SleepAndWakeUp() returns (raised: bool)
      requires Valid()
      modifies this`awake, this`pointerToData, alloc`errorCode, alloc.driver`live, alloc.driver`mapped, alloc.driver`log
      ensures raised <==>
                FailedSince(alloc.driver.log, |old(alloc.driver.log)|)
                || (old(alloc.errorCode) != 0 && old(pointerToData) != map[])
      ensures !raised ==>
                && Valid() && awake == old(awake) && SameShape(old(pointerToData), pointerToData)
                && Layout(alloc.driver.mapped) == Layout(old(alloc.driver.mapped))
    {
      raised := Sleep();
      if raised {
        return;
      }
      var fate;
      ghost var log0 := alloc.driver.log;
      raised, fate := WakeUp(None);
      FailedSplit(log0, alloc.driver.log, |old(alloc.driver.log)|);
      if !raised {
        assert Chosen(old(pointerToData), None) == old(pointerToData).Keys;
        assert awake == old(awake);
        SameLayout(old(pointerToData), pointerToData, awake, old(alloc.driver.mapped), alloc.driver.mapped);
      }
    }
  }

  // ---------------------------------------------------------------- any history

  datatype Command =
    | Allocate(size: nat, env: EnvValue, tag: string)
    | Release(ptr: nat, size: nat)
    | SleepAll
    | Wake(tags: Option<set<string>>)
    | Leave(ptr: nat)

  ghost predicate Possible(c: Command) {
    c.Allocate? ==> c.size < U64 && (c.env.Megabytes? ==> c.env.mb < U64)
  }

  // One command; `ok` says that no driver call failed on the way, or that my_malloc was refused.
  // A `crash` is the division by zero in my_malloc.
  method Perform(pool: Pool, c: Command) returns (ok: bool, crash: bool)
    requires pool.Valid() && Possible(c)
    modifies pool, pool.alloc`errorCode, pool.alloc.driver
    ensures ok ==> pool.Valid()
    ensures crash ==> c.Allocate?
    ensures !ok && !crash ==>
              || old(pool.alloc.errorCode) != 0 || FailedSince(pool.alloc.driver.log, |old(pool.alloc.driver.log)|)
              || (c.Leave? && c.ptr !in old(pool.pointerToData))
  {
    crash := false;
    match c
    case Allocate(size, env, tag) =>
      var r := pool.Malloc(size, env, tag, false);
      ok, crash := r.DriverRefused? || r.Pointer?, r.Crashed?;
    case Release(ptr, size) =>
      var known := ptr in pool.pointerToData;
      ghost var fault;
      var f;
      f, fault := pool.Free(ptr, size, false);
      ok := !known || (f.Freed? && NoneFailed(f.unmaps) && NoneFailed(f.releases));
    case SleepAll =>
      var raised := pool.Sleep();
      ok := !raised;
    case Wake(tags) =>
      var raised, fate := pool.WakeUp(tags);
      ok := !raised;
    case Leave(ptr) =>
      var raised := pool.Trim(ptr);
      ok := !raised;
  }

  predicate NoneFailed(statuses: seq<nat>)
    ensures NoneFailed(statuses) <==> AllZero(statuses)
  {
    forall i :: 0 <= i < |statuses| ==> statuses[i] == 0
  }

  // After any history of commands, as long as none failed, the live handles, the mappings and the
  // reservations are exactly the disjoint sums over the recorded allocations.
  method History(pool: Pool, commands: seq<Command>) returns (ok: bool)
    requires pool.Valid() && forall i :: 0 <= i < |commands| ==> Possible(commands[i])
    modifies pool, pool.alloc`errorCode, pool.alloc.driver
    ensures ok ==> pool.Valid()
    ensures ok && pool.pointerToData == map[] && pool.leaked == map[] ==>
              pool.alloc.driver.live == {} && pool.alloc.driver.mapped == map[] && pool.alloc.driver.reserved == map[]
  {
    ok := true;
    for i := 0 to |commands|
      invariant ok ==> pool.Valid()
    {
      if ok {
        var crash;
        ok, crash := Perform(pool, commands[i]);
      }
    }
    if ok && pool.pointerToData == map[] && pool.leaked == map[] {
      assert pool.awake == {};
      NothingLeft(pool.alloc.driver.live, pool.alloc.driver.mapped, pool.alloc.driver.reserved);
    }
  }
}
