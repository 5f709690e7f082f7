// The two functions Python calls to sleep and wake, and what holds over any number of sleep/wake
// rounds.
module AllocatorEntry {
  import opened Sequences
  import opened ChunkPlan
  import opened VmDriver
  import opened Allocator

  // python_create_and_map: an error becomes an exception and the latch is cleared. What a failed
  // wake leaves behind is what create_and_map left.
  method PythonCreateAndMap(alloc: Allocator, size: nat, base: nat, handles: array<nat>, sizes: seq<nat>)
    returns (raised: bool, fate: Fate)
    requires handles.Length == |sizes|
    modifies alloc`errorCode, alloc.driver`live, alloc.driver`mapped, alloc.driver`log, handles
    ensures alloc.errorCode == 0
    ensures raised <==> !fate.Done?
    ensures !raised ==>
              && Positive(sizes) && Distinct(handles[..])
              && AllMapped(old(alloc.driver.live), old(alloc.driver.mapped), alloc.driver.live, alloc.driver.mapped,
                           base, sizes, handles[..])
    ensures raised ==>
              Leftovers(old(alloc.driver.live), old(alloc.driver.mapped), alloc.driver.live, alloc.driver.mapped,
                        base, sizes, handles[..], fate)
    ensures raised <==> old(alloc.errorCode) != 0 || FailedSince(alloc.driver.log, |old(alloc.driver.log)|)
    ensures old(alloc.driver.log) <= alloc.driver.log && |old(alloc.driver.log)| < |alloc.driver.log|
    ensures !raised ==>
              Transcript(alloc.driver.log[|old(alloc.driver.log)| + 1..], size, base, sizes, handles[..], Done, 0)
    ensures alloc.driver.log[|old(alloc.driver.log)|].Context?
    ensures fate.Latched? <==> old(alloc.errorCode) != 0 || alloc.driver.log[|old(alloc.driver.log)|].status != 0
  {
    fate := alloc.CreateAndMap(size, base, handles, sizes);
    raised := alloc.errorCode != 0;
    if raised {
      alloc.errorCode := 0;
    }
  }

  // python_unmap_and_release: the same, around the best-effort release.
  method PythonUnmapAndRelease(alloc: Allocator, base: nat, handles: array<nat>, sizes: seq<nat>)
    returns (raised: bool)
    requires handles.Length == |sizes|
    modifies alloc`errorCode, alloc.driver`live, alloc.driver`mapped, alloc.driver`log
    ensures alloc.errorCode == 0
    ensures raised <==> old(alloc.errorCode) != 0 || FailedSince(alloc.driver.log, |old(alloc.driver.log)|)
    ensures old(alloc.driver.log) <= alloc.driver.log
    ensures !raised ==>
              && HandleSet(handles[..]) <= old(alloc.driver.live)
              && Starts(base, sizes, |sizes|) <= old(alloc.driver.mapped).Keys
              && alloc.driver.live == old(alloc.driver.live) - HandleSet(handles[..])
              && alloc.driver.mapped == old(alloc.driver.mapped) - Starts(base, sizes, |sizes|)
  {
    var context, unmaps, releases := alloc.UnmapAndRelease(base, handles, sizes);
    raised := alloc.errorCode != 0;
    if raised {
      alloc.errorCode := 0;
    } else {
      EverythingUnmapped(base, sizes, unmaps);
      EverythingReleased(handles[..], releases);
    }
  }

  lemma EverythingUnmapped(base: nat, sizes: seq<nat>, statuses: seq<nat>)
    requires |statuses| == |sizes| && AllZero(statuses)
    ensures Unmapped(base, sizes, statuses) == Starts(base, sizes, |sizes|)
  {
    AllUnmapped(base, sizes, statuses, |sizes|);
    forall a | a in Unmapped(base, sizes, statuses) ensures a in Starts(base, sizes, |sizes|) {
      var i :| 0 <= i < |sizes| && a == base + Offset(sizes, i);
      InStarts(base, sizes, |sizes|, i);
    }
  }

  lemma EverythingReleased(handles: seq<nat>, statuses: seq<nat>)
    requires |statuses| == |handles| && AllZero(statuses)
    ensures Released(handles, statuses) == HandleSet(handles)
  {
    forall h | h in handles ensures h in Released(handles, statuses) {
      var i :| 0 <= i < |handles| && handles[i] == h;
      assert statuses[i] == 0;
    }
  }

  // Creating and mapping, then releasing without an error, changes nothing.
  method CreateAndReleaseAgain(alloc: Allocator, size: nat, base: nat, handles: array<nat>, sizes: seq<nat>)
    returns (raised: bool)
    requires handles.Length == |sizes|
    modifies alloc`errorCode, alloc.driver`live, alloc.driver`mapped, alloc.driver`log, handles
    ensures alloc.errorCode == 0
    ensures raised <==> old(alloc.errorCode) != 0 || FailedSince(alloc.driver.log, |old(alloc.driver.log)|)
    ensures !raised ==> alloc.driver.live == old(alloc.driver.live) && alloc.driver.mapped == old(alloc.driver.mapped)
  {
    var fate;
    raised, fate := PythonCreateAndMap(alloc, size, base, handles, sizes);
    if !raised {
      TilesKeys(base, sizes, handles[..], |sizes|);
      ghost var between := alloc.driver.log;
      raised := PythonUnmapAndRelease(alloc, base, handles, sizes);
      FailedSplit(between, alloc.driver.log, |old(alloc.driver.log)|);
    }
  }

  // An allocation that is awake: its handles are live and its chunks tile the reservation.
  ghost predicate Awake(live: set<nat>, mapped: map<nat, Mapping>, base: nat, handles: seq<nat>, sizes: seq<nat>)
    requires |handles| == |sizes|
  {
    && HandleSet(handles) <= live
    && var tiles := Tiles(base, sizes, handles, |sizes|);
       tiles.Keys <= mapped.Keys && forall a :: a in tiles ==> mapped[a] == tiles[a]
  }

  // What one allocation leaves of the driver's state when it is taken out of it.
  lemma AsleepAndBack(live: set<nat>, mapped: map<nat, Mapping>, base: nat, handles: seq<nat>, sizes: seq<nat>)
    requires |handles| == |sizes| && Awake(live, mapped, base, handles, sizes)
    ensures live == (live - HandleSet(handles)) + HandleSet(handles)
    ensures mapped == (mapped - Starts(base, sizes, |sizes|)) + Tiles(base, sizes, handles, |sizes|)
    ensures (mapped - Starts(base, sizes, |sizes|)).Keys !! Starts(base, sizes, |sizes|)
  {
    TilesKeys(base, sizes, handles, |sizes|);
  }

  // The sizes at which addresses are mapped, whatever the handles.
  ghost function Layout(mapped: map<nat, Mapping>): map<nat, nat> {
    map a | a in mapped :: mapped[a].size
  }

  lemma {:induction false} TilesLayout(base: nat, sizes: seq<nat>, p: seq<nat>, q: seq<nat>, k: nat)
    requires k <= |sizes| && |p| == |q| == |sizes|
    ensures Layout(Tiles(base, sizes, p, k)) == Layout(Tiles(base, sizes, q, k))
  {
    if k > 0 {
      TilesLayout(base, sizes, p, q, k - 1);
      var a, t, u := base + Offset(sizes, k - 1), Tiles(base, sizes, p, k - 1), Tiles(base, sizes, q, k - 1);
      assert Layout(t[a := Mapping(sizes[k - 1], p[k - 1])]) == Layout(t)[a := sizes[k - 1]];
      assert Layout(u[a := Mapping(sizes[k - 1], q[k - 1])]) == Layout(u)[a := sizes[k - 1]];
    }
  }

  lemma LayoutOfSum(m: map<nat, Mapping>, t: map<nat, Mapping>, u: map<nat, Mapping>)
    requires Layout(t) == Layout(u)
    ensures Layout(m + t) == Layout(m + u)
  {
    assert t.Keys == Layout(t).Keys == u.Keys;
    forall a | a in t ensures t[a].size == u[a].size {
      assert Layout(t)[a] == Layout(u)[a];
    }
  }

  // Any number of error-free sleep/wake rounds keep every mapped range where it was, with the
  // size it had; only this allocation's handles are new, and no reservation moves.
  method SleepAndWake(alloc: Allocator, size: nat, base: nat, handles: array<nat>, sizes: seq<nat>, rounds: nat)
    returns (ok: bool)
    requires handles.Length == |sizes| && alloc.errorCode == 0
    requires Awake(alloc.driver.live, alloc.driver.mapped, base, handles[..], sizes)
    modifies alloc`errorCode, alloc.driver`live, alloc.driver`mapped, alloc.driver`log, handles
    ensures alloc.errorCode == 0
    ensures ok <==> !FailedSince(alloc.driver.log, |old(alloc.driver.log)|)
    ensures ok ==> Awake(alloc.driver.live, alloc.driver.mapped, base, handles[..], sizes)
    ensures ok ==> Layout(alloc.driver.mapped) == Layout(old(alloc.driver.mapped))
    ensures ok ==> alloc.driver.live - HandleSet(handles[..]) == old(alloc.driver.live) - old(HandleSet(handles[..]))
  {
    ghost var restLive := alloc.driver.live - HandleSet(handles[..]);
    ghost var starts := Starts(base, sizes, |sizes|);
    ghost var restMapped := alloc.driver.mapped - starts;
    ghost var tiles0 := Tiles(base, sizes, handles[..], |sizes|);
    AsleepAndBack(alloc.driver.live, alloc.driver.mapped, base, handles[..], sizes);
    TilesKeys(base, sizes, handles[..], |sizes|);
    for i := 0 to rounds
      invariant alloc.errorCode == 0
      invariant old(alloc.driver.log) <= alloc.driver.log
      invariant !FailedSince(alloc.driver.log, |old(alloc.driver.log)|)
      invariant alloc.driver.live == restLive + HandleSet(handles[..]) && HandleSet(handles[..]) !! restLive
      invariant alloc.driver.mapped == restMapped + Tiles(base, sizes, handles[..], |sizes|)
      invariant Tiles(base, sizes, handles[..], |sizes|).Keys == starts
      invariant Layout(Tiles(base, sizes, handles[..], |sizes|)) == Layout(tiles0)
    {
      ghost var before, log0 := handles[..], alloc.driver.log;
      var raised := PythonUnmapAndRelease(alloc, base, handles, sizes);
      FailedSplit(log0, alloc.driver.log, |old(alloc.driver.log)|);
      if raised {
        return false;
      }
      assert alloc.driver.live == restLive;
      assert alloc.driver.mapped == restMapped;
      var fate;
      ghost var log1 := alloc.driver.log;
      raised, fate := PythonCreateAndMap(alloc, size, base, handles, sizes);
      FailedSplit(log1, alloc.driver.log, |old(alloc.driver.log)|);
      if raised {
        return false;
      }
      TilesKeys(base, sizes, handles[..], |sizes|);
      TilesLayout(base, sizes, before, handles[..], |sizes|);
    }
    LayoutOfSum(restMapped, tiles0, Tiles(base, sizes, handles[..], |sizes|));
    ok := true;
  }
}
