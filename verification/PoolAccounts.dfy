// What a pool of allocations owns of the driver's state: the live handles, the mappings and the
// reservations are the disjoint sums over the recorded allocations.
module PoolAccounts {
  import opened ChunkPlan
  import opened VmDriver
  import opened Allocator
  import opened AllocatorEntry

  // The record of one allocation.
  datatype Data = Data(size: nat, handles: seq<nat>, sizes: seq<nat>, tag: string) {
    ghost predicate WellFormed() {
      |handles| == |sizes| && sizes != [] && Positive(sizes) && Offset(sizes, |sizes|) == size
    }
  }

  type Records = map<nat, Data>

  ghost function TilesOf(b: nat, d: Data): map<nat, Mapping> {
    if d.WellFormed() then Tiles(b, d.sizes, d.handles, |d.sizes|) else map[]
  }

  ghost function StartsOf(b: nat, d: Data): set<nat> {
    Starts(b, d.sizes, |d.sizes|)
  }

  ghost predicate RecordIsWellFormed(data: Records, b: nat) {
    b in data ==> data[b].WellFormed()
  }

  ghost predicate AllWellFormed(data: Records) {
    forall b :: RecordIsWellFormed(data, b)
  }

  // ---------------------------------------------------------------- handles

  ghost predicate IsAwake(data: Records, awake: set<nat>, b: nat) {
    b in awake && b in data
  }

  ghost predicate HandlesLive(data: Records, awake: set<nat>, live: set<nat>, b: nat) {
    IsAwake(data, awake, b) ==> HandleSet(data[b].handles) <= live
  }

  ghost predicate HandleOwned(data: Records, awake: set<nat>, live: set<nat>, h: nat) {
    h in live ==> exists b :: IsAwake(data, awake, b) && h in data[b].handles
  }

  ghost predicate NothingShared(data: Records, awake: set<nat>, b: nat, c: nat) {
    IsAwake(data, awake, b) && IsAwake(data, awake, c) && b != c ==>
      HandleSet(data[b].handles) !! HandleSet(data[c].handles)
  }

  // Every live handle belongs to one allocation that is awake, and all of its handles are live.
  ghost predicate HandlesAddUp(data: Records, awake: set<nat>, live: set<nat>) {
    && (forall b :: HandlesLive(data, awake, live, b))
    && (forall h :: HandleOwned(data, awake, live, h))
    && (forall b, c :: NothingShared(data, awake, b, c))
  }

  // ---------------------------------------------------------------- mappings

  ghost predicate Contains(large: map<nat, Mapping>, small: map<nat, Mapping>) {
    forall a :: a in small ==> a in large && large[a] == small[a]
  }

  ghost predicate ChunksMapped(data: Records, awake: set<nat>, mapped: map<nat, Mapping>, b: nat) {
    IsAwake(data, awake, b) ==> Contains(mapped, TilesOf(b, data[b]))
  }

  ghost predicate MappingOwned(data: Records, awake: set<nat>, mapped: map<nat, Mapping>, a: nat) {
    a in mapped ==> exists b :: IsAwake(data, awake, b) && a in StartsOf(b, data[b])
  }

  // Every mapping is a chunk of one allocation that is awake, and all of its chunks are mapped.
  ghost predicate MappingsAddUp(data: Records, awake: set<nat>, mapped: map<nat, Mapping>) {
    && (forall b :: ChunksMapped(data, awake, mapped, b))
    && (forall a :: MappingOwned(data, awake, mapped, a))
  }

  // ---------------------------------------------------------------- reservations

  ghost predicate Separate(ranges: map<nat, nat>, b: nat, c: nat) {
    b in ranges && c in ranges && b != c ==> b + ranges[b] <= c || c + ranges[c] <= b
  }

  // Ranges that do not overlap.
  ghost predicate Apart(ranges: map<nat, nat>) {
    forall b, c :: Separate(ranges, b, c)
  }

  ghost predicate ReservedAs(data: Records, leaked: map<nat, nat>, reserved: map<nat, nat>, b: nat) {
    && !(b in data && b in leaked)
    && (b in data ==> b in reserved && reserved[b] == data[b].size)
    && (b in leaked ==> b in reserved && reserved[b] == leaked[b])
    && (b in reserved ==> b in data || b in leaked)
  }

  // The reservations are those of the recorded allocations and those that were left behind.
  ghost predicate ReservationsAddUp(data: Records, leaked: map<nat, nat>, reserved: map<nat, nat>) {
    (forall b :: ReservedAs(data, leaked, reserved, b)) && Apart(reserved)
  }

  ghost predicate Accounts(data: Records, awake: set<nat>, leaked: map<nat, nat>,
                           live: set<nat>, mapped: map<nat, Mapping>, reserved: map<nat, nat>)
  {
    && awake <= data.Keys && AllWellFormed(data)
    && HandlesAddUp(data, awake, live)
    && MappingsAddUp(data, awake, mapped)
    && ReservationsAddUp(data, leaked, reserved)
  }

  // ---------------------------------------------------------------- where chunks lie

  lemma {:induction false} StartsWithin(base: nat, sizes: seq<nat>, k: nat, a: nat)
    requires k <= |sizes| && Positive(sizes) && a in Starts(base, sizes, k)
    ensures base <= a < base + Offset(sizes, k)
  {
    if k > 0 && a in Starts(base, sizes, k - 1) {
      StartsWithin(base, sizes, k - 1, a);
    }
  }

  // Chunks of different allocations start at different addresses.
  lemma ChunksApart(data: Records, leaked: map<nat, nat>, reserved: map<nat, nat>, b: nat, c: nat, a: nat)
    requires AllWellFormed(data) && ReservationsAddUp(data, leaked, reserved)
    requires b in data && c in data && a in StartsOf(b, data[b]) && a in StartsOf(c, data[c])
    ensures b == c
  {
    assert RecordIsWellFormed(data, b) && RecordIsWellFormed(data, c);
    assert ReservedAs(data, leaked, reserved, b) && ReservedAs(data, leaked, reserved, c);
    assert Separate(reserved, b, c);
    StartsWithin(b, data[b].sizes, |data[b].sizes|, a);
    StartsWithin(c, data[c].sizes, |data[c].sizes|, a);
  }

  // An allocation is awake exactly if its first chunk is mapped.
  lemma AwakeIsMapped(data: Records, awake: set<nat>, leaked: map<nat, nat>,
                      live: set<nat>, mapped: map<nat, Mapping>, reserved: map<nat, nat>, b: nat)
    requires Accounts(data, awake, leaked, live, mapped, reserved) && b in data
    ensures data[b].WellFormed() && b in StartsOf(b, data[b])
    ensures b in awake <==> b in mapped
  {
    assert RecordIsWellFormed(data, b);
    assert ChunksMapped(data, awake, mapped, b) && MappingOwned(data, awake, mapped, b);
    InStarts(b, data[b].sizes, |data[b].sizes|, 0);
    TilesKeys(b, data[b].sizes, data[b].handles, |data[b].sizes|);
    if b in mapped {
      var c :| IsAwake(data, awake, c) && b in StartsOf(c, data[c]);
      ChunksApart(data, leaked, reserved, b, c, b);
    }
  }

  // ---------------------------------------------------------------- frames

  // Only the records of allocations that are awake matter for handles and mappings.
  ghost predicate SameRecord(data: Records, data': Records, awake: set<nat>, b: nat) {
    (IsAwake(data, awake, b) <==> IsAwake(data', awake, b)) && (IsAwake(data, awake, b) ==> data'[b] == data[b])
  }

  lemma HandlesFrame(data: Records, data': Records, awake: set<nat>, live: set<nat>)
    requires HandlesAddUp(data, awake, live) && forall b :: SameRecord(data, data', awake, b)
    ensures HandlesAddUp(data', awake, live)
  {
    forall b ensures HandlesLive(data', awake, live, b) {
      assert SameRecord(data, data', awake, b) && HandlesLive(data, awake, live, b);
    }
    forall b, c ensures NothingShared(data', awake, b, c) {
      assert SameRecord(data, data', awake, b) && SameRecord(data, data', awake, c) && NothingShared(data, awake, b, c);
    }
    forall h ensures HandleOwned(data', awake, live, h) {
      assert HandleOwned(data, awake, live, h);
      if h in live {
        var b :| IsAwake(data, awake, b) && h in data[b].handles;
        assert SameRecord(data, data', awake, b);
      }
    }
  }

  lemma MappingsFrame(data: Records, data': Records, awake: set<nat>, mapped: map<nat, Mapping>)
    requires MappingsAddUp(data, awake, mapped) && forall b :: SameRecord(data, data', awake, b)
    ensures MappingsAddUp(data', awake, mapped)
  {
    forall b ensures ChunksMapped(data', awake, mapped, b) {
      assert SameRecord(data, data', awake, b) && ChunksMapped(data, awake, mapped, b);
    }
    forall a ensures MappingOwned(data', awake, mapped, a) {
      assert MappingOwned(data, awake, mapped, a);
      if a in mapped {
        var b :| IsAwake(data, awake, b) && a in StartsOf(b, data[b]);
        assert SameRecord(data, data', awake, b);
      }
    }
  }

  // ---------------------------------------------------------------- one more awake

  lemma AddHandles(data: Records, awake: set<nat>, live: set<nat>, b: nat)
    requires HandlesAddUp(data, awake, live) && b in data && b !in awake && HandleSet(data[b].handles) !! live
    ensures HandlesAddUp(data, awake + {b}, live + HandleSet(data[b].handles))
  {
    var awake', live' := awake + {b}, live + HandleSet(data[b].handles);
    forall c ensures HandlesLive(data, awake', live', c) {
      assert HandlesLive(data, awake, live, c);
    }
    forall c, d ensures NothingShared(data, awake', c, d) {
      assert NothingShared(data, awake, c, d) && HandlesLive(data, awake, live, c) && HandlesLive(data, awake, live, d);
    }
    forall h ensures HandleOwned(data, awake', live', h) {
      assert HandleOwned(data, awake, live, h);
      if h in live {
        var c :| IsAwake(data, awake, c) && h in data[c].handles;
        assert IsAwake(data, awake', c);
      } else {
        assert IsAwake(data, awake', b);
      }
    }
  }

  lemma ContainsMore(mapped: map<nat, Mapping>, tiles: map<nat, Mapping>, small: map<nat, Mapping>)
    requires Contains(mapped, small) && tiles.Keys !! mapped.Keys
    ensures Contains(mapped + tiles, small)
  {
  }

  lemma AddMappings(data: Records, awake: set<nat>, mapped: map<nat, Mapping>, b: nat, tiles: map<nat, Mapping>)
    requires MappingsAddUp(data, awake, mapped) && b in data && b !in awake && data[b].WellFormed()
    requires tiles == TilesOf(b, data[b]) && tiles.Keys !! mapped.Keys
    ensures MappingsAddUp(data, awake + {b}, mapped + tiles)
  {
    TilesKeys(b, data[b].sizes, data[b].handles, |data[b].sizes|);
    forall c ensures ChunksMapped(data, awake + {b}, mapped + tiles, c) {
      assert ChunksMapped(data, awake, mapped, c);
      if IsAwake(data, awake, c) {
        ContainsMore(mapped, tiles, TilesOf(c, data[c]));
      }
    }
    forall a ensures MappingOwned(data, awake + {b}, mapped + tiles, a) {
      assert MappingOwned(data, awake, mapped, a);
      if a in mapped {
        var c :| IsAwake(data, awake, c) && a in StartsOf(c, data[c]);
        assert IsAwake(data, awake + {b}, c);
      } else {
        assert IsAwake(data, awake + {b}, b);
      }
    }
  }

  lemma AddReservation(data: Records, leaked: map<nat, nat>, reserved: map<nat, nat>, b: nat, d: Data)
    requires ReservationsAddUp(data, leaked, reserved) && b !in leaked && Apart(reserved[b := d.size])
    ensures ReservationsAddUp(data[b := d], leaked, reserved[b := d.size])
  {
    var data', reserved' := data[b := d], reserved[b := d.size];
    forall c ensures ReservedAs(data', leaked, reserved', c) {
      assert ReservedAs(data, leaked, reserved, c);
    }
  }

  // A new allocation, or one that wakes up with new handles.
  lemma AddAllocation(data: Records, awake: set<nat>, leaked: map<nat, nat>, live: set<nat>, mapped: map<nat, Mapping>,
                      reserved: map<nat, nat>, b: nat, d: Data)
    requires Accounts(data, awake, leaked, live, mapped, reserved) && d.WellFormed() && b !in awake && b !in leaked
    requires HandleSet(d.handles) !! live && TilesOf(b, d).Keys !! mapped.Keys && Apart(reserved[b := d.size])
    ensures Accounts(data[b := d], awake + {b}, leaked, live + HandleSet(d.handles), mapped + TilesOf(b, d),
                     reserved[b := d.size])
  {
    var data' := data[b := d];
    forall c ensures RecordIsWellFormed(data', c) {
      assert RecordIsWellFormed(data, c);
    }
    HandlesFrame(data, data', awake, live);
    MappingsFrame(data, data', awake, mapped);
    AddHandles(data', awake, live, b);
    AddMappings(data', awake, mapped, b, TilesOf(b, d));
    AddReservation(data, leaked, reserved, b, d);
  }

  // ---------------------------------------------------------------- one less awake

  lemma TakeHandles(data: Records, awake: set<nat>, live: set<nat>, b: nat)
    requires HandlesAddUp(data, awake, live) && b in awake && b in data
    ensures HandlesAddUp(data, awake - {b}, live - HandleSet(data[b].handles))
  {
    var awake', live' := awake - {b}, live - HandleSet(data[b].handles);
    forall c ensures HandlesLive(data, awake', live', c) {
      assert HandlesLive(data, awake, live, c) && NothingShared(data, awake, b, c);
    }
    forall c, d ensures NothingShared(data, awake', c, d) {
      assert NothingShared(data, awake, c, d);
    }
    forall h ensures HandleOwned(data, awake', live', h) {
      assert HandleOwned(data, awake, live, h);
      if h in live' {
        var c :| IsAwake(data, awake, c) && h in data[c].handles;
        assert IsAwake(data, awake', c);
      }
    }
  }

  lemma ChunksStay(data: Records, leaked: map<nat, nat>, reserved: map<nat, nat>, b: nat, c: nat)
    requires AllWellFormed(data) && ReservationsAddUp(data, leaked, reserved) && b in data && c in data && b != c
    ensures TilesOf(c, data[c]).Keys !! StartsOf(b, data[b])
  {
    assert RecordIsWellFormed(data, c);
    TilesKeys(c, data[c].sizes, data[c].handles, |data[c].sizes|);
    forall a | a in StartsOf(c, data[c]) ensures a !in StartsOf(b, data[b]) {
      if a in StartsOf(b, data[b]) {
        ChunksApart(data, leaked, reserved, b, c, a);
        assert false;
      }
    }
  }

  lemma TakeMappings(data: Records, awake: set<nat>, leaked: map<nat, nat>, mapped: map<nat, Mapping>,
                     reserved: map<nat, nat>, b: nat)
    requires AllWellFormed(data) && MappingsAddUp(data, awake, mapped) && ReservationsAddUp(data, leaked, reserved)
    requires b in awake && b in data
    ensures MappingsAddUp(data, awake - {b}, mapped - StartsOf(b, data[b]))
  {
    var awake', gone := awake - {b}, StartsOf(b, data[b]);
    forall c ensures ChunksMapped(data, awake', mapped - gone, c) {
      assert ChunksMapped(data, awake, mapped, c);
      if IsAwake(data, awake', c) {
        ChunksStay(data, leaked, reserved, b, c);
      }
    }
    forall a ensures MappingOwned(data, awake', mapped - gone, a) {
      assert MappingOwned(data, awake, mapped, a);
      if a in mapped - gone {
        var c :| IsAwake(data, awake, c) && a in StartsOf(c, data[c]);
        assert IsAwake(data, awake', c);
      }
    }
  }

  // An allocation that goes to sleep.
  lemma PutToSleep(data: Records, awake: set<nat>, leaked: map<nat, nat>, live: set<nat>, mapped: map<nat, Mapping>,
                   reserved: map<nat, nat>, b: nat)
    requires Accounts(data, awake, leaked, live, mapped, reserved) && b in data
    requires StartsOf(b, data[b]) <= mapped.Keys
    ensures b in awake
    ensures Accounts(data, awake - {b}, leaked, live - HandleSet(data[b].handles), mapped - StartsOf(b, data[b]), reserved)
  {
    AwakeIsMapped(data, awake, leaked, live, mapped, reserved, b);
    TakeHandles(data, awake, live, b);
    TakeMappings(data, awake, leaked, mapped, reserved, b);
  }

  // ---------------------------------------------------------------- forgetting

  lemma ForgetReservation(data: Records, leaked: map<nat, nat>, reserved: map<nat, nat>, b: nat)
    requires ReservationsAddUp(data, leaked, reserved) && b in data
    ensures ReservationsAddUp(data - {b}, leaked[b := data[b].size], reserved)
    ensures ReservationsAddUp(data - {b}, leaked, reserved - {b})
  {
    var data', leaked', reserved' := data - {b}, leaked[b := data[b].size], reserved - {b};
    forall c ensures ReservedAs(data', leaked', reserved, c) && ReservedAs(data', leaked, reserved', c) {
      assert ReservedAs(data, leaked, reserved, c) && ReservedAs(data, leaked, reserved, b);
    }
    forall c, d ensures Separate(reserved', c, d) {
      assert Separate(reserved, c, d);
    }
  }

  // A sleeping allocation that is forgotten: its reservation stays behind until it is given back.
  lemma Forget(data: Records, awake: set<nat>, leaked: map<nat, nat>, live: set<nat>, mapped: map<nat, Mapping>,
               reserved: map<nat, nat>, b: nat)
    requires Accounts(data, awake, leaked, live, mapped, reserved) && b in data && b !in awake
    ensures Accounts(data - {b}, awake, leaked[b := data[b].size], live, mapped, reserved)
    ensures Accounts(data - {b}, awake, leaked, live, mapped, reserved - {b})
  {
    forall c ensures RecordIsWellFormed(data - {b}, c) {
      assert RecordIsWellFormed(data, c);
    }
    HandlesFrame(data, data - {b}, awake, live);
    MappingsFrame(data, data - {b}, awake, mapped);
    ForgetReservation(data, leaked, reserved, b);
  }

  // An allocation that is taken out of a pool, with and without its reservation.
  lemma Drop(data: Records, awake: set<nat>, leaked: map<nat, nat>, live: set<nat>, mapped: map<nat, Mapping>,
             reserved: map<nat, nat>, b: nat)
    requires Accounts(data, awake, leaked, live, mapped, reserved) && b in data
    requires StartsOf(b, data[b]) <= mapped.Keys
    ensures b in awake
    ensures var live', mapped' := live - HandleSet(data[b].handles), mapped - StartsOf(b, data[b]);
            && Accounts(data - {b}, awake - {b}, leaked[b := data[b].size], live', mapped', reserved)
            && Accounts(data - {b}, awake - {b}, leaked, live', mapped', reserved - {b})
  {
    PutToSleep(data, awake, leaked, live, mapped, reserved, b);
    Forget(data, awake - {b}, leaked, live - HandleSet(data[b].handles), mapped - StartsOf(b, data[b]), reserved, b);
  }

  // The record of a sleeping allocation may hold any handles.
  lemma NewHandlesAsleep(data: Records, awake: set<nat>, leaked: map<nat, nat>, live: set<nat>, mapped: map<nat, Mapping>,
                         reserved: map<nat, nat>, b: nat, d: Data)
    requires Accounts(data, awake, leaked, live, mapped, reserved) && b in data && b !in awake
    requires d == data[b].(handles := d.handles) && |d.handles| == |data[b].handles|
    ensures Accounts(data[b := d], awake, leaked, live, mapped, reserved)
  {
    var data' := data[b := d];
    forall c ensures RecordIsWellFormed(data', c) && ReservedAs(data', leaked, reserved, c) {
      assert RecordIsWellFormed(data, c) && ReservedAs(data, leaked, reserved, c);
    }
    HandlesFrame(data, data', awake, live);
    MappingsFrame(data, data', awake, mapped);
  }

  lemma ApartOneMore(reserved: map<nat, nat>, b: nat, size: nat)
    requires Apart(reserved) && forall c :: c in reserved ==> b + size <= c || c + reserved[c] <= b
    ensures Apart(reserved[b := size])
  {
    var reserved' := reserved[b := size];
    forall c, d ensures Separate(reserved', c, d) {
      assert Separate(reserved, c, d);
    }
  }

  // A reservation that nobody recorded.
  lemma LeaveReservation(data: Records, awake: set<nat>, leaked: map<nat, nat>, live: set<nat>, mapped: map<nat, Mapping>,
                         reserved: map<nat, nat>, b: nat, size: nat)
    requires Accounts(data, awake, leaked, live, mapped, reserved) && b !in reserved
    requires forall c :: c in reserved ==> b + size <= c || c + reserved[c] <= b
    ensures Accounts(data, awake, leaked[b := size], live, mapped, reserved[b := size])
  {
    ApartOneMore(reserved, b, size);
    var leaked', reserved' := leaked[b := size], reserved[b := size];
    forall c ensures ReservedAs(data, leaked', reserved', c) {
      assert ReservedAs(data, leaked, reserved, c) && ReservedAs(data, leaked, reserved, b);
    }
  }

  // A pointer that my_malloc returned.
  lemma NewAllocation(data: Records, awake: set<nat>, leaked: map<nat, nat>, live: set<nat>, mapped: map<nat, Mapping>,
                      reserved: map<nat, nat>, b: nat, d: Data)
    requires Accounts(data, awake, leaked, live, mapped, reserved) && d.WellFormed() && b !in reserved
    requires forall c :: c in reserved ==> b + d.size <= c || c + reserved[c] <= b
    requires HandleSet(d.handles) !! live && TilesOf(b, d).Keys !! mapped.Keys
    ensures b !in data
    ensures Accounts(data[b := d], awake + {b}, leaked, live + HandleSet(d.handles), mapped + TilesOf(b, d),
                     reserved[b := d.size])
  {
    RecordedIsReserved(data, awake, leaked, live, mapped, reserved, b);
    ApartOneMore(reserved, b, d.size);
    AddAllocation(data, awake, leaked, live, mapped, reserved, b, d);
  }

  lemma RecordedIsReserved(data: Records, awake: set<nat>, leaked: map<nat, nat>, live: set<nat>,
                           mapped: map<nat, Mapping>, reserved: map<nat, nat>, b: nat)
    requires Accounts(data, awake, leaked, live, mapped, reserved)
    ensures b in data ==> b !in leaked && b in reserved && reserved[b] == data[b].size && data[b].WellFormed()
    ensures b !in reserved ==> b !in data && b !in leaked && b !in awake
    ensures b in awake ==> b in data && HandleSet(data[b].handles) <= live
    ensures Apart(reserved)
  {
    assert HandlesLive(data, awake, live, b);
    assert ReservedAs(data, leaked, reserved, b) && RecordIsWellFormed(data, b);
  }

  // ---------------------------------------------------------------- the same layout

  // The same allocations, but for their handles.
  ghost predicate SameShape(data: Records, data': Records) {
    forall b :: SameButHandles(data, data', b)
  }

  ghost predicate SameButHandles(data: Records, data': Records, b: nat) {
    (b in data <==> b in data') && (b in data ==> data'[b] == data[b].(handles := data'[b].handles))
  }

  lemma SameShapeTwice(a: Records, b: Records, c: Records)
    requires SameShape(a, b) && SameShape(b, c)
    ensures SameShape(a, c)
  {
    forall x ensures SameButHandles(a, c, x) {
      assert SameButHandles(a, b, x) && SameButHandles(b, c, x);
    }
  }

  lemma SameChunk(data: Records, data': Records, awake: set<nat>, mapped: map<nat, Mapping>, mapped': map<nat, Mapping>,
                  a: nat)
    requires AllWellFormed(data) && AllWellFormed(data') && SameShape(data, data')
    requires MappingsAddUp(data, awake, mapped) && MappingsAddUp(data', awake, mapped') && a in mapped
    ensures a in mapped' && mapped'[a].size == mapped[a].size
  {
    assert MappingOwned(data, awake, mapped, a);
    var b :| IsAwake(data, awake, b) && a in StartsOf(b, data[b]);
    assert SameButHandles(data, data', b);
    assert IsAwake(data', awake, b);
    var d, d' := data[b], data'[b];
    assert RecordIsWellFormed(data, b) && RecordIsWellFormed(data', b);
    assert ChunksMapped(data, awake, mapped, b) && ChunksMapped(data', awake, mapped', b);
    TilesKeys(b, d.sizes, d.handles, |d.sizes|);
    TilesKeys(b, d'.sizes, d'.handles, |d'.sizes|);
    TilesLayout(b, d.sizes, d.handles, d'.handles, |d.sizes|);
    assert Layout(TilesOf(b, d))[a] == Layout(TilesOf(b, d'))[a];
  }

  // Records that differ in handles only are mapped alike.
  lemma SameLayout(data: Records, data': Records, awake: set<nat>, mapped: map<nat, Mapping>, mapped': map<nat, Mapping>)
    requires AllWellFormed(data) && AllWellFormed(data') && SameShape(data, data')
    requires MappingsAddUp(data, awake, mapped) && MappingsAddUp(data', awake, mapped')
    ensures Layout(mapped) == Layout(mapped')
  {
    forall a | a in mapped ensures a in mapped' && mapped'[a].size == mapped[a].size {
      SameChunk(data, data', awake, mapped, mapped', a);
    }
    forall b ensures SameButHandles(data', data, b) {
      assert SameButHandles(data, data', b);
    }
    forall a | a in mapped' ensures a in mapped {
      SameChunk(data', data, awake, mapped', mapped, a);
    }
  }

  // ---------------------------------------------------------------- the empty pool

  lemma NothingYet()
    ensures Accounts(map[], {}, map[], {}, map[], map[])
  {
  }

  // With nothing recorded and nothing left behind, the driver is empty.
  lemma NothingLeft(live: set<nat>, mapped: map<nat, Mapping>, reserved: map<nat, nat>)
    requires Accounts(map[], {}, map[], live, mapped, reserved)
    ensures live == {} && mapped == map[] && reserved == map[]
  {
    forall h ensures h !in live {
      assert HandleOwned(map[], {}, live, h);
    }
    forall a ensures a !in mapped && a !in reserved {
      assert MappingOwned(map[], {}, mapped, a) && ReservedAs(map[], map[], reserved, a);
    }
  }
}
