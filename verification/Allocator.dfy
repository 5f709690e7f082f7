// The ROCm paths of the allocator: create-and-map with rollback, best-effort unmap-and-release,
// the global error latch, and the entry points built on them.
module Allocator {
  import opened Sequences
  import opened ChunkPlan
  import opened VmDriver

  ghost predicate AllZero(statuses: seq<nat>) {
    forall i :: 0 <= i < |statuses| ==> statuses[i] == 0
  }

  // The error that best-effort cleanup reports: the first one met.
  function FirstError(statuses: seq<nat>): nat {
    if statuses == [] then 0
    else
      var before := FirstError(statuses[..|statuses| - 1]);
      if before != 0 then before else statuses[|statuses| - 1]
  }

  lemma {:induction false} FirstErrorIsFirst(statuses: seq<nat>)
    ensures FirstError(statuses) == 0 <==> AllZero(statuses)
    ensures FirstError(statuses) != 0 ==>
              exists i :: 0 <= i < |statuses| && statuses[i] == FirstError(statuses) && AllZero(statuses[..i])
  {
    if statuses != [] {
      var n := |statuses| - 1;
      var before := statuses[..n];
      FirstErrorIsFirst(before);
      if FirstError(before) != 0 {
        var i :| 0 <= i < n && before[i] == FirstError(before) && AllZero(before[..i]);
        assert before[..i] == statuses[..i];
        assert statuses[i] == FirstError(statuses) && AllZero(statuses[..i]);
      } else if statuses[n] != 0 {
        assert statuses[n] == FirstError(statuses) && AllZero(statuses[..n]);
      } else {
        assert forall i :: 0 <= i < n ==> statuses[i] == before[i];
      }
    }
  }

  lemma AllZeroConcat(a: seq<nat>, b: seq<nat>)
    ensures AllZero(a + b) <==> AllZero(a) && AllZero(b)
  {
    if AllZero(a + b) {
      forall i | 0 <= i < |a| ensures a[i] == 0 {
        assert (a + b)[i] == a[i];
      }
      forall i | 0 <= i < |b| ensures b[i] == 0 {
        assert (a + b)[|a| + i] == b[i];
      }
    }
  }

  // Handles whose release call succeeded.
  function Released(handles: seq<nat>, statuses: seq<nat>): set<nat>
    requires |statuses| <= |handles|
  {
    set i | 0 <= i < |statuses| && statuses[i] == 0 :: handles[i]
  }

  // Start addresses whose unmap call succeeded.
  function Unmapped(base: nat, sizes: seq<nat>, statuses: seq<nat>): set<nat>
    requires |statuses| <= |sizes|
  {
    set i | 0 <= i < |statuses| && statuses[i] == 0 :: base + Offset(sizes, i)
  }

  // The first k chunks, mapped one after the other from `base`.
  function Tiles(base: nat, sizes: seq<nat>, handles: seq<nat>, k: nat): map<nat, Mapping>
    requires k <= |sizes| && k <= |handles|
  {
    if k == 0 then map[]
    else Tiles(base, sizes, handles, k - 1)[base + Offset(sizes, k - 1) := Mapping(sizes[k - 1], handles[k - 1])]
  }

  function UnmapCalls(base: nat, sizes: seq<nat>, statuses: seq<nat>): (calls: seq<Call>)
    requires |statuses| <= |sizes|
    ensures |calls| == |statuses|
  {
    seq(|statuses|, i requires 0 <= i < |statuses| => Unmap(base + Offset(sizes, i), sizes[i], statuses[i]))
  }

  // The calls that create the first k chunks, and those that map them.
  function CreateCalls(sizes: seq<nat>, k: nat): (calls: seq<Call>)
    requires k <= |sizes|
    ensures |calls| == k
  {
    seq(k, i requires 0 <= i < k => Create(sizes[i], 0))
  }

  function MapCalls(base: nat, sizes: seq<nat>, handles: seq<nat>, k: nat): (calls: seq<Call>)
    requires k <= |sizes| && k <= |handles|
    ensures |calls| == k
  {
    seq(k, i requires 0 <= i < k => Map(base + Offset(sizes, i), sizes[i], handles[i], 0))
  }

  function ReleaseCalls(handles: seq<nat>, statuses: seq<nat>): (calls: seq<Call>)
    requires |statuses| <= |handles|
    ensures |calls| == |statuses|
  {
    seq(|statuses|, i requires 0 <= i < |statuses| => Release(handles[i], statuses[i]))
  }

  // What each call is: chunk i is created with its own size, and mapped and unmapped at its own
  // address with its own size.
  lemma CallsOfChunk(base: nat, sizes: seq<nat>, handles: seq<nat>, statuses: seq<nat>, k: nat, i: nat)
    requires i < k == |statuses| <= |sizes| == |handles|
    ensures CreateCalls(sizes, k)[i] == Create(sizes[i], 0)
    ensures MapCalls(base, sizes, handles, k)[i] == Map(base + Offset(sizes, i), sizes[i], handles[i], 0)
    ensures UnmapCalls(base, sizes, statuses)[i] == Unmap(base + Offset(sizes, i), sizes[i], statuses[i])
    ensures ReleaseCalls(handles, statuses)[i] == Release(handles[i], statuses[i])
  {
  }

  lemma CreateCallsOneMore(sizes: seq<nat>, k: nat)
    requires k < |sizes|
    ensures CreateCalls(sizes, k + 1) == CreateCalls(sizes, k) + [Create(sizes[k], 0)]
  {
  }

  lemma MapCallsOneMore(base: nat, sizes: seq<nat>, handles: seq<nat>, k: nat)
    requires k < |sizes| && k < |handles|
    ensures MapCalls(base, sizes, handles, k + 1)
         == MapCalls(base, sizes, handles, k) + [Map(base + Offset(sizes, k), sizes[k], handles[k], 0)]
  {
  }

  function HandleSet(handles: seq<nat>): set<nat> {
    set h | h in handles
  }

  // Start addresses of the first k chunks.
  function Starts(base: nat, sizes: seq<nat>, k: nat): set<nat>
    requires k <= |sizes|
  {
    if k == 0 then {} else Starts(base, sizes, k - 1) + {base + Offset(sizes, k - 1)}
  }

  lemma {:induction false} TilesKeys(base: nat, sizes: seq<nat>, handles: seq<nat>, k: nat)
    requires k <= |sizes| && k <= |handles|
    ensures Tiles(base, sizes, handles, k).Keys == Starts(base, sizes, k)
  {
    if k > 0 {
      TilesKeys(base, sizes, handles, k - 1);
    }
  }

  lemma {:induction false} InStarts(base: nat, sizes: seq<nat>, k: nat, i: nat)
    requires i < k <= |sizes|
    ensures base + Offset(sizes, i) in Starts(base, sizes, k)
  {
    if i < k - 1 {
      InStarts(base, sizes, k - 1, i);
    }
  }

  lemma {:induction false} AllUnmapped(base: nat, sizes: seq<nat>, statuses: seq<nat>, k: nat)
    requires k <= |statuses| <= |sizes| && AllZero(statuses)
    ensures Starts(base, sizes, k) <= Unmapped(base, sizes, statuses)
  {
    if k > 0 {
      AllUnmapped(base, sizes, statuses, k - 1);
      assert statuses[k - 1] == 0;
    }
  }

  // Mapping one more chunk.
  lemma TilesOneMore(mapped0: map<nat, Mapping>, mapped: map<nat, Mapping>, base: nat, sizes: seq<nat>, handles: seq<nat>, i: nat)
    requires i < |sizes| && i < |handles|
    requires mapped == mapped0 + Tiles(base, sizes, handles, i) && base + Offset(sizes, i) !in mapped
    requires Tiles(base, sizes, handles, i).Keys !! mapped0.Keys
    ensures Tiles(base, sizes, handles, i + 1).Keys !! mapped0.Keys
    ensures mapped[base + Offset(sizes, i) := Mapping(sizes[i], handles[i])] == mapped0 + Tiles(base, sizes, handles, i + 1)
  {
    assert base + Offset(sizes, i) !in mapped0;
  }

  lemma {:induction false} TileAt(base: nat, sizes: seq<nat>, handles: seq<nat>, k: nat, i: nat)
    requires i < k <= |sizes| && k <= |handles| && Positive(sizes)
    ensures base + Offset(sizes, i) in Tiles(base, sizes, handles, k)
    ensures Tiles(base, sizes, handles, k)[base + Offset(sizes, i)] == Mapping(sizes[i], handles[i])
  {
    if i < k - 1 {
      TileAt(base, sizes, handles, k - 1, i);
      OffsetGrows(sizes, i, k - 1);
    }
  }

  // Mapped chunks cover the reservation, so that the set-access call is in order.
  lemma TilesCover(mapped: map<nat, Mapping>, base: nat, sizes: seq<nat>, handles: seq<nat>)
    requires |sizes| == |handles| && Positive(sizes)
    ensures Covered(mapped + Tiles(base, sizes, handles, |sizes|), base, Offset(sizes, |sizes|))
  {
    var mapped' := mapped + Tiles(base, sizes, handles, |sizes|);
    forall x: nat | base <= x < base + Offset(sizes, |sizes|) ensures IsMapped(mapped', x) {
      var i := EveryByteInOneChunk(sizes, x - base, |sizes|);
      TileAt(base, sizes, handles, |sizes|, i);
      var a := base + Offset(sizes, i);
      assert a in mapped' && a <= x < a + mapped'[a].size;
    }
  }

  // Releasing what was created gives back the old handles exactly when no release failed.
  lemma RollbackHandles(live: set<nat>, handles: seq<nat>, releases: seq<nat>)
    requires |releases| <= |handles|
    requires Distinct(handles[..|releases|]) && HandleSet(handles[..|releases|]) !! live
    ensures live + HandleSet(handles[..|releases|]) - Released(handles, releases) == live <==> AllZero(releases)
  {
    var hs := handles[..|releases|];
    var live' := live + HandleSet(hs) - Released(handles, releases);
    if AllZero(releases) {
      forall h | h in hs ensures h in Released(handles, releases) {
        var i :| 0 <= i < |hs| && hs[i] == h;
        assert releases[i] == 0 && handles[i] == h;
      }
    } else {
      var i :| 0 <= i < |releases| && releases[i] != 0;
      assert hs[i] in HandleSet(hs);
      forall j | 0 <= j < |releases| && j != i ensures handles[j] != handles[i] {
        assert Differ(hs, if i < j then i else j, if i < j then j else i);
      }
      assert hs[i] in live';
    }
  }

  // Unmapping what was mapped gives back the old mappings exactly when no unmap failed.
  lemma RollbackTiles(mapped: map<nat, Mapping>, base: nat, sizes: seq<nat>, handles: seq<nat>, k: nat, unmaps: seq<nat>)
    requires k <= |sizes| && |sizes| == |handles| && |unmaps| == k
    requires Tiles(base, sizes, handles, k).Keys !! mapped.Keys
    requires forall i :: 0 <= i < k ==> sizes[i] > 0
    ensures mapped + Tiles(base, sizes, handles, k) - Unmapped(base, sizes, unmaps) == mapped <==> AllZero(unmaps)
  {
    var tiles := Tiles(base, sizes, handles, k);
    var gone := Unmapped(base, sizes, unmaps);
    var mapped' := mapped + tiles - gone;
    TilesKeys(base, sizes, handles, k);
    if AllZero(unmaps) {
      AllUnmapped(base, sizes, unmaps, k);
      forall a | a in gone ensures a in tiles {
        var i :| 0 <= i < k && a == base + Offset(sizes, i);
        InStarts(base, sizes, k, i);
      }
    } else {
      var i :| 0 <= i < k && unmaps[i] != 0;
      var a := base + Offset(sizes, i);
      InStarts(base, sizes, k, i);
      forall j | 0 <= j < k && base + Offset(sizes, j) == a ensures j == i {
        OffsetGrows(sizes, if i < j then i else j, if i < j then j else i);
      }
      assert a in tiles.Keys && a !in gone;
      assert a in mapped' && a !in mapped;
    }
  }

  // How create_and_map ended.
  datatype Fate =
    | Done
    | Latched(created: bool)                                   // the latch was set beforehand
    | CreateFailed(at: nat, code: nat, releases: seq<nat>)     // statuses of the rollback's calls
    | MapFailed(at: nat, code: nat, unmaps: seq<nat>, releases: seq<nat>)
    | AccessFailed(code: nat)

  // The driver's memory after create_and_map failed, for each way to fail.
  ghost predicate Leftovers(live0: set<nat>, mapped0: map<nat, Mapping>, live: set<nat>, mapped: map<nat, Mapping>,
                            addr: nat, sizes: seq<nat>, handles: seq<nat>, fate: Fate)
    requires |handles| == |sizes|
  {
    match fate
    case Done => false
    case Latched(created) =>
      mapped == mapped0 && (created ==> sizes != [])
      && live == live0 + if created && handles != [] then {handles[0]} else {}
    case CreateFailed(_, _, releases) =>
      mapped == mapped0 && (live == live0 <==> AllZero(releases))
    case MapFailed(_, _, unmaps, releases) =>
      && HandleSet(handles) !! live0
      && (live == live0 <==> AllZero(releases)) && (mapped == mapped0 <==> AllZero(unmaps))
    case AccessFailed(_) =>
      live == live0 + HandleSet(handles) && mapped == mapped0 + Tiles(addr, sizes, handles, |sizes|)
  }

  // The driver's memory after create_and_map succeeded.
  ghost predicate AllMapped(live0: set<nat>, mapped0: map<nat, Mapping>, live: set<nat>, mapped: map<nat, Mapping>,
                            addr: nat, sizes: seq<nat>, handles: seq<nat>)
    requires |handles| == |sizes|
  {
    && HandleSet(handles) !! live0 && live == live0 + HandleSet(handles)
    && Tiles(addr, sizes, handles, |sizes|).Keys !! mapped0.Keys
    && mapped == mapped0 + Tiles(addr, sizes, handles, |sizes|)
  }

  // The driver calls of create_and_map after its context call, for each way to end; `code` is the
  // latch afterwards.
  ghost predicate Transcript(calls: seq<Call>, size: nat, base: nat, sizes: seq<nat>, handles: seq<nat>, fate: Fate, code: nat)
    requires |handles| == |sizes|
  {
    match fate
    case Latched(created) =>
      && |calls| == 1 && (created <==> sizes != [] && calls[0].status == 0)
      && calls[0] == (if sizes == [] then SetAccess(base, size, calls[0].status) else Create(sizes[0], calls[0].status))
    case CreateFailed(at, _, releases) =>
      && at < |sizes| && |releases| == at
      && calls == CreateCalls(sizes, at) + [Create(sizes[at], code)] + ReleaseCalls(handles, releases)
    case _ =>
      && |calls| >= |sizes| && calls[..|sizes|] == CreateCalls(sizes, |sizes|)
      && MapTranscript(calls[|sizes|..], size, base, sizes, handles, fate, code)
  }

  // Those after all chunks were created.
  ghost predicate MapTranscript(calls: seq<Call>, size: nat, base: nat, sizes: seq<nat>, handles: seq<nat>, fate: Fate, code: nat)
    requires |handles| == |sizes|
  {
    match fate
    case MapFailed(at, _, unmaps, releases) =>
      && at < |sizes| && |unmaps| == at && |releases| == |sizes|
      && calls == MapCalls(base, sizes, handles, at) + [Map(base + Offset(sizes, at), sizes[at], handles[at], code)]
                  + UnmapCalls(base, sizes, unmaps) + ReleaseCalls(handles, releases)
    case _ => calls == MapCalls(base, sizes, handles, |sizes|) + [SetAccess(base, size, code)]
  }

  // In a create_and_map that completes: create every chunk with its own size, map it at its own
  // address, then make the whole range accessible.
  lemma CompleteTranscript(calls: seq<Call>, size: nat, base: nat, sizes: seq<nat>, handles: seq<nat>, i: nat)
    requires |handles| == |sizes| && i < |sizes| && Transcript(calls, size, base, sizes, handles, Done, 0)
    ensures |calls| == 2 * |sizes| + 1 && calls[2 * |sizes|] == SetAccess(base, size, 0)
    ensures calls[i] == Create(sizes[i], 0)
    ensures calls[|sizes| + i] == Map(base + Offset(sizes, i), sizes[i], handles[i], 0)
  {
    var n := |sizes|;
    assert calls[..n][i] == CreateCalls(sizes, n)[i];
    assert calls[n..][i] == MapCalls(base, sizes, handles, n)[i];
    assert calls[n..][n] == calls[2 * n];
  }

  // A best-effort release went well exactly if no call of it failed.
  lemma ReleaseFails(calls: seq<Call>, context: nat, base: nat, sizes: seq<nat>, handles: seq<nat>,
                     unmaps: seq<nat>, releases: seq<nat>)
    requires |handles| == |sizes| == |unmaps| == |releases|
    requires calls == [Context(context)] + UnmapCalls(base, sizes, unmaps) + ReleaseCalls(handles, releases)
    ensures FailedSince(calls, 0) <==> context != 0 || !AllZero(unmaps) || !AllZero(releases)
  {
    var unmapCalls, releaseCalls := UnmapCalls(base, sizes, unmaps), ReleaseCalls(handles, releases);
    UnmapsFail(base, sizes, unmaps);
    ReleasesFail(handles, releases);
    FailedConcat([Context(context)] + unmapCalls, releaseCalls);
    FailedConcat([Context(context)], unmapCalls);
    assert FailedSince([Context(context)], 0) <==> [Context(context)][0].status != 0;
  }

  lemma UnmapsFail(base: nat, sizes: seq<nat>, statuses: seq<nat>)
    requires |statuses| <= |sizes|
    ensures FailedSince(UnmapCalls(base, sizes, statuses), 0) <==> !AllZero(statuses)
  {
    var calls := UnmapCalls(base, sizes, statuses);
    forall i | 0 <= i < |statuses| ensures calls[i].status == statuses[i] {
    }
    if i :| 0 <= i < |statuses| && statuses[i] != 0 {
      FailedAt(calls, 0, i);
    }
  }

  lemma ReleasesFail(handles: seq<nat>, statuses: seq<nat>)
    requires |statuses| <= |handles|
    ensures FailedSince(ReleaseCalls(handles, statuses), 0) <==> !AllZero(statuses)
  {
    var calls := ReleaseCalls(handles, statuses);
    forall i | 0 <= i < |statuses| ensures calls[i].status == statuses[i] {
    }
    if i :| 0 <= i < |statuses| && statuses[i] != 0 {
      FailedAt(calls, 0, i);
    }
  }

  // It ended well exactly if no call failed.
  lemma TranscriptFails(calls: seq<Call>, size: nat, base: nat, sizes: seq<nat>, handles: seq<nat>, fate: Fate, code: nat)
    requires |handles| == |sizes| && Transcript(calls, size, base, sizes, handles, fate, code) && !fate.Latched?
    requires fate.Done? <==> code == 0
    ensures fate.Done? <==> !FailedSince(calls, 0)
  {
    var n := |sizes|;
    match fate
    case CreateFailed(at, _, _) => FailedAt(calls, 0, at);
    case MapFailed(at, _, _, _) =>
      assert calls[n..][at].status != 0;
      FailedAt(calls, 0, n + at);
    case AccessFailed(_) =>
      assert calls[n..][n].status != 0;
      FailedAt(calls, 0, 2 * n);
    case Done =>
      assert calls[n..][n] == calls[2 * n];
      forall i | 0 <= i < |calls| ensures calls[i].status == 0 {
        if i < 2 * n {
          CompleteTranscript(calls, size, base, sizes, handles, if i < n then i else i - n);
        }
      }
  }

  lemma TwoParts(log0: seq<Call>, log1: seq<Call>, log2: seq<Call>, first: seq<Call>)
    requires log1 == log0 + first && log1 <= log2
    ensures log0 <= log2 && log2[|log0|..][..|first|] == first && log2[|log0|..][|first|..] == log2[|log1|..]
  {
  }

  class Allocator {
    const driver: Driver
    var errorCode: nat

    constructor ()
      ensures fresh(driver) && errorCode == 0
      ensures driver.live == {} && driver.mapped == map[] && driver.reserved == map[]
    {
      driver := new Driver();
      errorCode := 0;
    }

    // CUDA_CHECK: remember the error, and nothing else.
    method Check(status: nat)
      modifies this`errorCode
      ensures errorCode == if status != 0 then status else old(errorCode)
    {
      if status != 0 {
        errorCode := status;
      }
    }

    // Releases the first k handles, ignoring what the driver says.
    method ReleaseAll(handles: array<nat>, k: nat) returns (statuses: seq<nat>)
      requires k <= handles.Length
      modifies driver`live, driver`log
      ensures |statuses| == k
      ensures Released(handles[..], statuses) <= old(driver.live)
      ensures driver.live == old(driver.live) - Released(handles[..], statuses)
      ensures driver.log == old(driver.log) + ReleaseCalls(handles[..], statuses)
    {
      statuses := [];
      for j := 0 to k
        invariant |statuses| == j
        invariant Released(handles[..], statuses) <= old(driver.live)
        invariant driver.live == old(driver.live) - Released(handles[..], statuses)
        invariant driver.log == old(driver.log) + ReleaseCalls(handles[..], statuses)
        invariant handles[..] == old(handles[..])
      {
        var status := driver.MemRelease(handles[j]);
        ghost var before := statuses;
        statuses := statuses + [status];
        assert Released(handles[..], statuses)
            == Released(handles[..], before) + (if status == 0 then {handles[j]} else {});
        assert ReleaseCalls(handles[..], statuses) == ReleaseCalls(handles[..], before) + [Release(handles[j], status)];
      }
    }

    // Unmaps the first k chunks at the addresses at which they were mapped, ignoring what the
    // driver says.
    method UnmapAll(base: nat, sizes: seq<nat>, k: nat) returns (statuses: seq<nat>)
      requires k <= |sizes|
      modifies driver`mapped, driver`log
      ensures |statuses| == k
      ensures Unmapped(base, sizes, statuses) <= old(driver.mapped).Keys
      ensures driver.mapped == old(driver.mapped) - Unmapped(base, sizes, statuses)
      ensures driver.log == old(driver.log) + UnmapCalls(base, sizes, statuses)
    {
      statuses := [];
      var unmappedSize := 0;
      for j := 0 to k
        invariant |statuses| == j && unmappedSize == Offset(sizes, j)
        invariant Unmapped(base, sizes, statuses) <= old(driver.mapped).Keys
        invariant driver.mapped == old(driver.mapped) - Unmapped(base, sizes, statuses)
        invariant driver.log == old(driver.log) + UnmapCalls(base, sizes, statuses)
      {
        var status := driver.MemUnmap(base + unmappedSize, sizes[j]);
        unmappedSize := unmappedSize + sizes[j];
        ghost var before := statuses;
        statuses := statuses + [status];
        assert Unmapped(base, sizes, statuses)
            == Unmapped(base, sizes, before) + (if status == 0 then {base + Offset(sizes, j)} else {});
        assert UnmapCalls(base, sizes, statuses)
            == UnmapCalls(base, sizes, before) + [Unmap(base + Offset(sizes, j), sizes[j], status)];
      }
    }

    // The create loop, entered with a clean latch: all chunks, or none but those whose rollback
    // release failed.
    method CreateChunks(handles: array<nat>, sizes: seq<nat>) returns (at: nat, releases: seq<nat>)
      requires handles.Length == |sizes| && errorCode == 0
      modifies this`errorCode, driver`live, driver`log, handles
      ensures at <= |sizes| && (at == |sizes| <==> errorCode == 0)
      ensures Distinct(handles[..at]) && HandleSet(handles[..at]) !! old(driver.live)
      ensures errorCode == 0 ==> driver.live == old(driver.live) + HandleSet(handles[..])
      ensures errorCode != 0 ==> |releases| == at
      ensures errorCode != 0 ==>
                driver.live == old(driver.live) + HandleSet(handles[..at]) - Released(handles[..], releases)
      ensures errorCode == 0 ==> driver.log == old(driver.log) + CreateCalls(sizes, |sizes|)
      ensures errorCode != 0 ==>
                driver.log == old(driver.log) + CreateCalls(sizes, at) + [Create(sizes[at], errorCode)]
                              + ReleaseCalls(handles[..], releases)
    {
      releases := [];
      for i := 0 to |sizes|
        invariant errorCode == 0
        invariant Distinct(handles[..i]) && HandleSet(handles[..i]) !! old(driver.live)
        invariant driver.live == old(driver.live) + HandleSet(handles[..i])
        invariant driver.log == old(driver.log) + CreateCalls(sizes, i)
      {
        var status, handle := driver.MemCreate(sizes[i]);
        handles[i] := handle;
        Check(status);
        assert handles[..i + 1] == handles[..i] + [handle];
        CreateCallsOneMore(sizes, i);
        if status == 0 {
          DistinctAppend(handles[..i], handle);
        }
        if errorCode != 0 {
          releases := ReleaseAll(handles, i);
          at := i;
          return;
        }
      }
      at := |sizes|;
      assert handles[..|sizes|] == handles[..];
    }

    // The rollback of the map loop: unmap the first k chunks, release every handle.
    method UndoMaps(base: nat, handles: array<nat>, sizes: seq<nat>, k: nat)
      returns (unmaps: seq<nat>, releases: seq<nat>)
      requires k <= |sizes| == handles.Length
      modifies driver`live, driver`mapped, driver`log
      ensures |unmaps| == k && |releases| == |sizes|
      ensures driver.mapped == old(driver.mapped) - Unmapped(base, sizes, unmaps)
      ensures driver.live == old(driver.live) - Released(handles[..], releases)
      ensures driver.log == old(driver.log) + UnmapCalls(base, sizes, unmaps) + ReleaseCalls(handles[..], releases)
    {
      unmaps := UnmapAll(base, sizes, k);
      releases := ReleaseAll(handles, |sizes|);
    }

    // The map loop, entered with a clean latch and every handle live.
    method MapChunks(base: nat, handles: array<nat>, sizes: seq<nat>)
      returns (at: nat, unmaps: seq<nat>, releases: seq<nat>)
      requires handles.Length == |sizes| && errorCode == 0
      modifies this`errorCode, driver`live, driver`mapped, driver`log
      ensures at <= |sizes| && (at == |sizes| <==> errorCode == 0)
      ensures forall i :: 0 <= i < at ==> sizes[i] > 0
      ensures Tiles(base, sizes, handles[..], at).Keys !! old(driver.mapped).Keys
      ensures errorCode == 0 ==> driver.live == old(driver.live)
      ensures errorCode == 0 ==> driver.mapped == old(driver.mapped) + Tiles(base, sizes, handles[..], |sizes|)
      ensures errorCode != 0 ==> |unmaps| == at && |releases| == |sizes|
      ensures errorCode != 0 ==> driver.live == old(driver.live) - Released(handles[..], releases)
      ensures errorCode != 0 ==>
                driver.mapped == old(driver.mapped) + Tiles(base, sizes, handles[..], at) - Unmapped(base, sizes, unmaps)
      ensures errorCode == 0 ==> driver.log == old(driver.log) + MapCalls(base, sizes, handles[..], |sizes|)
      ensures errorCode != 0 ==>
                driver.log == old(driver.log) + MapCalls(base, sizes, handles[..], at)
                              + [Map(base + Offset(sizes, at), sizes[at], handles[at], errorCode)]
                              + UnmapCalls(base, sizes, unmaps) + ReleaseCalls(handles[..], releases)
    {
      unmaps, releases := [], [];
      var allocatedSize := 0;
      for i := 0 to |sizes|
        invariant errorCode == 0 && allocatedSize == Offset(sizes, i)
        invariant forall j :: 0 <= j < i ==> sizes[j] > 0
        invariant Tiles(base, sizes, handles[..], i).Keys !! old(driver.mapped).Keys
        invariant driver.mapped == old(driver.mapped) + Tiles(base, sizes, handles[..], i)
        invariant driver.live == old(driver.live)
        invariant driver.log == old(driver.log) + MapCalls(base, sizes, handles[..], i)
      {
        ghost var before := driver.mapped;
        var status := driver.MemMap(base + allocatedSize, sizes[i], handles[i]);
        Check(status);
        if errorCode != 0 {
          unmaps, releases := UndoMaps(base, handles, sizes, i);
          at := i;
          return;
        }
        MapCallsOneMore(base, sizes, handles[..], i);
        TilesOneMore(old(driver.mapped), before, base, sizes, handles[..], i);
        allocatedSize := allocatedSize + sizes[i];
      }
      at := |sizes|;
    }

    // create_and_map. With a clean latch it either maps every chunk or rolls back, and the
    // rollback restores the driver exactly when all of its own calls succeed. A failing
    // set-access call leaves everything mapped. With a latch that was already set, or is set by
    // the context call that comes first, the first handle is created and lost.
    method CreateAndMap(size: nat, base: nat, handles: array<nat>, sizes: seq<nat>) returns (fate: Fate)
      requires handles.Length == |sizes|
      modifies this`errorCode, driver`live, driver`mapped, driver`log, handles
      ensures fate.Done? <==> errorCode == 0
      ensures fate.Done? <==> old(errorCode) == 0 && !FailedSince(driver.log, |old(driver.log)|)
      ensures old(driver.log) <= driver.log && |old(driver.log)| < |driver.log|
      ensures driver.log[|old(driver.log)|].Context?
      ensures fate.Latched? <==> old(errorCode) != 0 || driver.log[|old(driver.log)|].status != 0
      ensures fate.Done? ==> size > 0 && Covered(driver.mapped, base, size)
      ensures fate.Done? || fate.AccessFailed? ==>
                && Positive(sizes) && Distinct(handles[..]) && HandleSet(handles[..]) !! old(driver.live)
                && Tiles(base, sizes, handles[..], |sizes|).Keys !! old(driver.mapped).Keys
                && driver.live == old(driver.live) + HandleSet(handles[..])
                && driver.mapped == old(driver.mapped) + Tiles(base, sizes, handles[..], |sizes|)
      ensures Transcript(driver.log[|old(driver.log)| + 1..], size, base, sizes, handles[..], fate, errorCode)
      ensures fate.CreateFailed? || fate.MapFailed? || fate.AccessFailed? ==> errorCode == fate.code != 0
      ensures fate.AccessFailed? && size == Offset(sizes, |sizes|) ==> Covered(driver.mapped, base, size)
      ensures fate.CreateFailed? ==>
                && driver.mapped == old(driver.mapped)
                && driver.live == old(driver.live) + HandleSet(handles[..fate.at]) - Released(handles[..], fate.releases)
                && (driver.live == old(driver.live) <==> AllZero(fate.releases))
      ensures fate.MapFailed? ==>
                && HandleSet(handles[..]) !! old(driver.live)
                && driver.live == old(driver.live) + HandleSet(handles[..]) - Released(handles[..], fate.releases)
                && driver.mapped == old(driver.mapped) + Tiles(base, sizes, handles[..], fate.at)
                                    - Unmapped(base, sizes, fate.unmaps)
                && (driver.live == old(driver.live) <==> AllZero(fate.releases))
                && (driver.mapped == old(driver.mapped) <==> AllZero(fate.unmaps))
      ensures fate.Latched? ==>
                && driver.mapped == old(driver.mapped)
                && (fate.created ==> |sizes| > 0 && handles[0] !in old(driver.live))
                && driver.live == old(driver.live) + if fate.created then {handles[0]} else {}
    {
      var context := driver.EnsureContext();
      Check(context);
      if errorCode != 0 {
        fate := CreateAndMapLatched(size, base, handles, sizes);
      } else {
        fate := CreateAndMapClean(size, base, handles, sizes);
      }
      FailedSuffix(driver.log, |old(driver.log)| + 1);
      FailedFirst(driver.log, |old(driver.log)|);
      if !fate.Latched? {
        TranscriptFails(driver.log[|old(driver.log)| + 1..], size, base, sizes, handles[..], fate, errorCode);
      }
    }

    // The same code entered with a clean latch and a context.
    method CreateAndMapClean(size: nat, base: nat, handles: array<nat>, sizes: seq<nat>) returns (fate: Fate)
      requires handles.Length == |sizes| && errorCode == 0
      modifies this`errorCode, driver`live, driver`mapped, driver`log, handles
      ensures !fate.Latched? && (fate.Done? <==> errorCode == 0) && (!fate.Done? ==> fate.code == errorCode)
      ensures old(driver.log) <= driver.log
      ensures Transcript(driver.log[|old(driver.log)|..], size, base, sizes, handles[..], fate, errorCode)
      ensures fate.Done? || fate.AccessFailed? ==>
                && Positive(sizes) && Distinct(handles[..]) && HandleSet(handles[..]) !! old(driver.live)
                && Tiles(base, sizes, handles[..], |sizes|).Keys !! old(driver.mapped).Keys
                && driver.live == old(driver.live) + HandleSet(handles[..])
                && driver.mapped == old(driver.mapped) + Tiles(base, sizes, handles[..], |sizes|)
      ensures fate.Done? ==> size > 0 && Covered(driver.mapped, base, size)
      ensures fate.AccessFailed? && size == Offset(sizes, |sizes|) ==> Covered(driver.mapped, base, size)
      ensures fate.CreateFailed? ==>
                && fate.at < |sizes| && |fate.releases| == fate.at
                && driver.mapped == old(driver.mapped)
                && driver.live == old(driver.live) + HandleSet(handles[..fate.at]) - Released(handles[..], fate.releases)
                && (driver.live == old(driver.live) <==> AllZero(fate.releases))
      ensures fate.MapFailed? ==>
                && fate.at < |sizes| && |fate.unmaps| == fate.at && |fate.releases| == |sizes|
                && HandleSet(handles[..]) !! old(driver.live)
                && driver.live == old(driver.live) + HandleSet(handles[..]) - Released(handles[..], fate.releases)
                && driver.mapped == old(driver.mapped) + Tiles(base, sizes, handles[..], fate.at)
                                    - Unmapped(base, sizes, fate.unmaps)
                && (driver.live == old(driver.live) <==> AllZero(fate.releases))
                && (driver.mapped == old(driver.mapped) <==> AllZero(fate.unmaps))
    {
      ghost var live0, log0 := driver.live, driver.log;
      var at, releases := CreateChunks(handles, sizes);
      if errorCode != 0 {
        assert handles[..][..at] == handles[..at];
        RollbackHandles(live0, handles[..], releases);
        return CreateFailed(at, errorCode, releases);
      }
      assert handles[..][..|sizes|] == handles[..|sizes|] == handles[..];
      ghost var log1 := driver.log;
      fate := MapAndGrant(size, base, handles, sizes);
      TwoParts(log0, log1, driver.log, CreateCalls(sizes, |sizes|));
      if fate.MapFailed? {
        RollbackHandles(live0, handles[..], fate.releases);
      }
    }

    // The part after the create loop, entered with every handle live.
    method MapAndGrant(size: nat, base: nat, handles: array<nat>, sizes: seq<nat>) returns (fate: Fate)
      requires handles.Length == |sizes| && errorCode == 0
      modifies this`errorCode, driver`live, driver`mapped, driver`log
      ensures fate.Done? || fate.MapFailed? || fate.AccessFailed?
      ensures (fate.Done? <==> errorCode == 0) && (!fate.Done? ==> fate.code == errorCode)
      ensures old(driver.log) <= driver.log
      ensures MapTranscript(driver.log[|old(driver.log)|..], size, base, sizes, handles[..], fate, errorCode)
      ensures !fate.MapFailed? ==>
                && Positive(sizes) && Tiles(base, sizes, handles[..], |sizes|).Keys !! old(driver.mapped).Keys
                && driver.live == old(driver.live)
                && driver.mapped == old(driver.mapped) + Tiles(base, sizes, handles[..], |sizes|)
      ensures fate.Done? ==> size > 0 && Covered(driver.mapped, base, size)
      ensures fate.AccessFailed? && size == Offset(sizes, |sizes|) ==> Covered(driver.mapped, base, size)
      ensures fate.MapFailed? ==>
                && fate.at < |sizes| && |fate.unmaps| == fate.at && |fate.releases| == |sizes|
                && driver.live == old(driver.live) - Released(handles[..], fate.releases)
                && driver.mapped == old(driver.mapped) + Tiles(base, sizes, handles[..], fate.at)
                                    - Unmapped(base, sizes, fate.unmaps)
                && (driver.mapped == old(driver.mapped) <==> AllZero(fate.unmaps))
    {
      ghost var mapped0 := driver.mapped;
      var at, unmaps, releases := MapChunks(base, handles, sizes);
      if errorCode != 0 {
        RollbackTiles(mapped0, base, sizes, handles[..], at, unmaps);
        return MapFailed(at, errorCode, unmaps, releases);
      }
      TilesCover(mapped0, base, sizes, handles[..]);
      var access := driver.MemSetAccess(base, size);
      Check(access);
      if errorCode != 0 {
        return AccessFailed(errorCode);
      }
      return Done;
    }

    // The same code entered with the latch set: the first create call is followed by a rollback
    // of nothing.
    method CreateAndMapLatched(size: nat, base: nat, handles: array<nat>, sizes: seq<nat>) returns (fate: Fate)
      requires handles.Length == |sizes| && errorCode != 0
      modifies this`errorCode, driver`live, driver`log, handles
      ensures fate.Latched? && errorCode != 0
      ensures fate.created ==> |sizes| > 0 && handles[0] !in old(driver.live)
      ensures driver.live == old(driver.live) + if fate.created then {handles[0]} else {}
      ensures old(driver.log) <= driver.log
      ensures Transcript(driver.log[|old(driver.log)|..], size, base, sizes, handles[..], fate, errorCode)
    {
      if |sizes| > 0 {
        var status, handle := driver.MemCreate(sizes[0]);
        handles[0] := handle;
        Check(status);
        return Latched(status == 0);
      }
      var access := driver.MemSetAccess(base, size);
      Check(access);
      return Latched(false);
    }

    // unmap_and_release: every chunk is unmapped and every handle released, whatever fails, and
    // the first failure is latched.
    method UnmapAndRelease(base: nat, handles: array<nat>, sizes: seq<nat>)
      returns (context: nat, unmaps: seq<nat>, releases: seq<nat>)
      requires handles.Length == |sizes|
      modifies this`errorCode, driver`live, driver`mapped, driver`log
      ensures |unmaps| == |releases| == |sizes|
      ensures driver.log == old(driver.log) + [Context(context)]
                            + UnmapCalls(base, sizes, unmaps) + ReleaseCalls(handles[..], releases)
      ensures Unmapped(base, sizes, unmaps) <= old(driver.mapped).Keys
      ensures Released(handles[..], releases) <= old(driver.live)
      ensures driver.mapped == old(driver.mapped) - Unmapped(base, sizes, unmaps)
      ensures driver.live == old(driver.live) - Released(handles[..], releases)
      ensures errorCode == if FirstError(unmaps + releases) != 0 then FirstError(unmaps + releases)
                           else if context != 0 then context else old(errorCode)
      ensures errorCode == 0 <==> old(errorCode) == 0 && context == 0 && AllZero(unmaps) && AllZero(releases)
      ensures FailedSince(driver.log, |old(driver.log)|) <==> context != 0 || !AllZero(unmaps) || !AllZero(releases)
    {
      context := driver.EnsureContext();
      Check(context);
      unmaps := UnmapAll(base, sizes, |sizes|);
      releases := ReleaseAll(handles, |sizes|);
      var firstError := 0;
      var statuses := unmaps + releases;
      for i := 0 to |statuses|
        invariant firstError == FirstError(statuses[..i])
      {
        assert statuses[..i + 1][..i] == statuses[..i];
        if statuses[i] != 0 && firstError == 0 {
          firstError := statuses[i];
        }
      }
      assert statuses[..|statuses|] == statuses;
      if firstError != 0 {
        Check(firstError);
      }
      FirstErrorIsFirst(statuses);
      AllZeroConcat(unmaps, releases);
      ghost var calls := driver.log[|old(driver.log)|..];
      assert calls == [Context(context)] + UnmapCalls(base, sizes, unmaps) + ReleaseCalls(handles[..], releases);
      ReleaseFails(calls, context, base, sizes, handles[..], unmaps, releases);
      FailedSuffix(driver.log, |old(driver.log)|);
    }
  }
}
