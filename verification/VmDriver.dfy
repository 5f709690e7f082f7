// The virtual-memory driver as the allocator sees it. Any call may fail; a failed call changes
// nothing. A successful call obeys the rules below, and every call is written to a log.
module VmDriver {
  import opened Alignment

  // 0 is success, anything else an error code.
  type Status = nat

  datatype Mapping = Mapping(size: nat, handle: nat)

  datatype Call =
    | Context(status: Status)
    | Granularity(status: Status)
    | Reserve(size: nat, status: Status)
    | AddressFree(addr: nat, size: nat, status: Status)
    | Create(size: nat, status: Status)
    | Map(addr: nat, size: nat, handle: nat, status: Status)
    | Unmap(addr: nat, size: nat, status: Status)
    | Release(handle: nat, status: Status)
    | SetAccess(addr: nat, size: nat, status: Status)

  predicate IsMapped(mapped: map<nat, Mapping>, x: nat) {
    exists a :: a in mapped && a <= x < a + mapped[a].size
  }

  predicate Covered(mapped: map<nat, Mapping>, addr: nat, size: nat) {
    forall x: nat :: addr <= x < addr + size ==> IsMapped(mapped, x)
  }

  // Some call from the n-th on failed.
  ghost predicate FailedSince(log: seq<Call>, n: nat) {
    exists i :: n <= i < |log| && log[i].status != 0
  }

  lemma FailedSplit(log: seq<Call>, log': seq<Call>, n: nat)
    requires n <= |log| && log <= log'
    ensures FailedSince(log', n) <==> FailedSince(log, n) || FailedSince(log', |log|)
  {
    if FailedSince(log, n) {
      var i :| n <= i < |log| && log[i].status != 0;
      assert log'[i] == log[i];
    }
    if i :| n <= i < |log'| && log'[i].status != 0 {
      assert i < |log| ==> log[i] == log'[i];
    }
  }

  lemma FailedFirst(log: seq<Call>, n: nat)
    requires n < |log|
    ensures FailedSince(log, n) <==> log[n].status != 0 || FailedSince(log, n + 1)
  {
  }

  lemma FailedConcat(a: seq<Call>, b: seq<Call>)
    ensures FailedSince(a + b, 0) <==> FailedSince(a, 0) || FailedSince(b, 0)
  {
    FailedSplit(a, a + b, 0);
    FailedSuffix(a + b, |a|);
    assert (a + b)[|a|..] == b;
  }

  lemma FailedSuffix(log: seq<Call>, n: nat)
    requires n <= |log|
    ensures FailedSince(log, n) <==> FailedSince(log[n..], 0)
  {
    if i :| n <= i < |log| && log[i].status != 0 {
      assert log[n..][i - n].status != 0;
    }
  }

  lemma FailedAt(log: seq<Call>, n: nat, i: nat)
    requires n <= i < |log| && log[i].status != 0
    ensures FailedSince(log, n)
  {
  }

  class Driver {
    var live: set<nat>             // allocation handles
    var mapped: map<nat, Mapping>  // start address of each mapped range
    var reserved: map<nat, nat>    // start address and size of each reserved range
    var log: seq<Call>

    constructor ()
      ensures live == {} && mapped == map[] && reserved == map[] && log == []
    {
      live, mapped, reserved, log := {}, map[], map[], [];
    }

    // cuCtxGetCurrent and, when there is no context, the two calls that make one.
    method EnsureContext() returns (status: Status)
      modifies this`log
      ensures log == old(log) + [Context(status)]
    {
      status := *;
      log := log + [Context(status)];
    }

    method GetAllocationGranularity() returns (status: Status, granularity: nat)
      modifies this`log
      ensures log == old(log) + [Granularity(status)]
      ensures status == 0 ==> 0 < granularity < U64
    {
      status := *;
      granularity := *;
      if status == 0 && !(0 < granularity < U64) {
        status := 1;
      }
      log := log + [Granularity(status)];
    }

    predicate Unreserved(addr: nat, size: nat)
      reads this
    {
      addr !in reserved && forall b :: b in reserved ==> addr + size <= b || b + reserved[b] <= addr
    }

    // Reserves a range that is not empty and overlaps no reservation and no mapping.
    method AddressReserve(size: nat) returns (status: Status, addr: nat)
      modifies this`log, this`reserved
      ensures log == old(log) + [Reserve(size, status)]
      ensures status == 0 ==> size > 0 && old(Unreserved(addr, size)) && old(Free(addr, size))
      ensures reserved == if status == 0 then old(reserved)[addr := size] else old(reserved)
    {
      status := *;
      addr := *;
      if status == 0 && !(size > 0 && Unreserved(addr, size) && Free(addr, size)) {
        status := 1;
      }
      if status == 0 {
        reserved := reserved[addr := size];
      }
      log := log + [Reserve(size, status)];
    }

    // A reservation can only be given back whole.
    predicate Freeable(addr: nat, size: nat)
      reads this
    {
      addr in reserved && reserved[addr] == size
    }

    // `fault` says whether the driver failed although the request was in order.
    method FreeAddress(addr: nat, size: nat) returns (status: Status, ghost fault: bool)
      modifies this`log, this`reserved
      ensures log == old(log) + [AddressFree(addr, size, status)]
      ensures status == 0 <==> old(Freeable(addr, size)) && !fault
      ensures fault ==> old(Freeable(addr, size))
      ensures reserved == if status == 0 then old(reserved) - {addr} else old(reserved)
    {
      status := *;
      if status == 0 && !Freeable(addr, size) {
        status := 1;
      }
      fault := status != 0 && Freeable(addr, size);
      if status == 0 {
        reserved := reserved - {addr};
      }
      log := log + [AddressFree(addr, size, status)];
    }

    method MemCreate(size: nat) returns (status: Status, handle: nat)
      modifies this`log, this`live
      ensures log == old(log) + [Create(size, status)]
      ensures status == 0 ==> handle !in old(live) && live == old(live) + {handle}
      ensures status != 0 ==> live == old(live)
    {
      status := *;
      handle := *;
      if status == 0 && handle in live {
        status := 1;
      }
      if status == 0 {
        live := live + {handle};
      }
      log := log + [Create(size, status)];
    }

    predicate Free(addr: nat, size: nat)
      reads this
    {
      addr !in mapped && forall a :: a in mapped ==> addr + size <= a || a + mapped[a].size <= addr
    }

    // Maps a live handle over an unmapped range.
    method MemMap(addr: nat, size: nat, handle: nat) returns (status: Status)
      modifies this`log, this`mapped
      ensures log == old(log) + [Map(addr, size, handle, status)]
      ensures status == 0 ==> size > 0 && handle in live && old(Free(addr, size))
      ensures mapped == if status == 0 then old(mapped)[addr := Mapping(size, handle)] else old(mapped)
    {
      status := *;
      if status == 0 && !(size > 0 && handle in live && Free(addr, size)) {
        status := 1;
      }
      if status == 0 {
        mapped := mapped[addr := Mapping(size, handle)];
      }
      log := log + [Map(addr, size, handle, status)];
    }

    // Unmaps a range that was mapped as one.
    method MemUnmap(addr: nat, size: nat) returns (status: Status)
      modifies this`log, this`mapped
      ensures log == old(log) + [Unmap(addr, size, status)]
      ensures status == 0 ==> addr in old(mapped) && old(mapped)[addr].size == size
      ensures mapped == if status == 0 then old(mapped) - {addr} else old(mapped)
    {
      status := *;
      if status == 0 && !(addr in mapped && mapped[addr].size == size) {
        status := 1;
      }
      if status == 0 {
        mapped := mapped - {addr};
      }
      log := log + [Unmap(addr, size, status)];
    }

    method MemRelease(handle: nat) returns (status: Status)
      modifies this`log, this`live
      ensures log == old(log) + [Release(handle, status)]
      ensures status == 0 ==> handle in old(live)
      ensures live == if status == 0 then old(live) - {handle} else old(live)
    {
      status := *;
      if status == 0 && handle !in live {
        status := 1;
      }
      if status == 0 {
        live := live - {handle};
      }
      log := log + [Release(handle, status)];
    }

    // Makes a range accessible that is not empty and mapped throughout.
    method MemSetAccess(addr: nat, size: nat) returns (status: Status)
      modifies this`log
      ensures log == old(log) + [SetAccess(addr, size, status)]
      ensures status == 0 ==> size > 0 && Covered(mapped, addr, size)
    {
      status := *;
      if status == 0 && !(size > 0 && Covered(mapped, addr, size)) {
        status := 1;
      }
      log := log + [SetAccess(addr, size, status)];
    }
  }
}
