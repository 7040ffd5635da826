/**
 * Short call sequences on a fresh pallet, checked against the contracts of
 * `PalletZero.Pallet` alone: what callers can rely on without reading the
 * method bodies.
 */
module ZeroScenarios {
  import opened ZeroTypes
  import opened PalletZero

  /**
   * `a` inserts 100, adds 50 and reads its own entry: the entry ends at 150
   * and the log holds the three events in order.
   */
  method InsertIncreaseGet(a: AccountId) returns (results: seq<DispatchResult>, stored: u32, log: seq<Event>)
    ensures results == [Ok(()), Ok(()), Ok(())]
    ensures stored == 150
    ensures log == [Event.InsertEntry(a, 100), Event.IncreaseEntry(a, 100, 150), Event.GetEntry(a, 150)]
  {
    var p := new Pallet();
    var r1 := p.InsertEntry(Signed(a), 100);
    var r2 := p.IncreaseEntry(Signed(a), 50);
    var r3 := p.GetEntry(Signed(a), a);
    results, stored, log := [r1, r2, r3], p.simpleMap[a], p.events;
  }

  /** Inserting `v1` and then adding `v2`, with no overflow, stores the exact sum. */
  method InsertThenIncrease(a: AccountId, v1: u32, v2: u32) returns (r: DispatchResult, stored: u32, log: seq<Event>)
    requires v1 as int + v2 as int <= U32_MAX
    ensures r == Ok(())
    ensures stored as int == v1 as int + v2 as int
    ensures log == [Event.InsertEntry(a, v1), Event.IncreaseEntry(a, v1, stored)]
  {
    var p := new Pallet();
    var _ := p.InsertEntry(Signed(a), v1);
    r := p.IncreaseEntry(Signed(a), v2);
    stored, log := p.simpleMap[a], p.events;
  }

  /** An entry at `u32::MAX` rejects every positive addition and stays at `u32::MAX`. */
  method IncreaseAtMax(a: AccountId, k: u32) returns (r: DispatchResult, stored: u32, log: seq<Event>)
    requires k > 0
    ensures r == Err(Module(MaxValueReached))
    ensures stored as int == U32_MAX
    ensures log == [Event.InsertEntry(a, 0xFFFF_FFFF)]
  {
    var p := new Pallet();
    var _ := p.InsertEntry(Signed(a), 0xFFFF_FFFF);
    r := p.IncreaseEntry(Signed(a), k);
    stored, log := p.simpleMap[a], p.events;
  }

  /** A second insert overwrites the first; both inserts are logged. */
  method InsertTwice(a: AccountId, v1: u32, v2: u32) returns (stored: u32, log: seq<Event>)
    ensures stored == v2
    ensures log == [Event.InsertEntry(a, v1), Event.InsertEntry(a, v2)]
  {
    var p := new Pallet();
    var _ := p.InsertEntry(Signed(a), v1);
    var _ := p.InsertEntry(Signed(a), v2);
    stored, log := p.simpleMap[a], p.events;
  }

  /**
   * `get_entry` by `a` on `b`'s entry reports `a` with `b`'s value: the
   * event does not name whose entry was read.
   */
  method GetOtherEntry(a: AccountId, b: AccountId, v: u32) returns (r: DispatchResult, log: seq<Event>)
    ensures r == Ok(())
    ensures log == [Event.InsertEntry(b, v), Event.GetEntry(a, v)]
  {
    var p := new Pallet();
    var _ := p.InsertEntry(Signed(b), v);
    r := p.GetEntry(Signed(a), b);
    log := p.events;
  }

  /** An account that never inserted has no entry to read or increase. */
  method MissingEntry(a: AccountId, b: AccountId, add: u32) returns (r1: DispatchResult, r2: DispatchResult, log: seq<Event>)
    requires a != b
    ensures r1 == Err(Module(NoValueStored))
    ensures r2 == Err(Module(NoValueStored))
    ensures log == [Event.InsertEntry(a, 7)]
  {
    var p := new Pallet();
    var _ := p.InsertEntry(Signed(a), 7);
    r1 := p.GetEntry(Signed(a), b);
    r2 := p.IncreaseEntry(Signed(b), add);
    log := p.events;
  }

  /**
   * Two cache updates, by `a` then by `b`: the first replaces the default
   * account, the second replaces `a`, and the cache ends as `b`.
   */
  method UpdateCacheTwice(a: AccountId, b: AccountId) returns (cache: AccountId, log: seq<Event>)
    ensures cache == b
    ensures log == [Event.UpdateCache(DefaultAccount, a), Event.UpdateCache(a, b)]
  {
    var p := new Pallet();
    var _ := p.UpdateCache(Signed(a));
    var _ := p.UpdateCache(Signed(b));
    cache, log := p.userCache, p.events;
  }

  /** Root and unsigned origins are turned away by every call, leaving storage and log empty. */
  method NoSignerNoEffect(origin: Origin, a: AccountId, v: u32) returns (results: seq<DispatchResult>, size: nat, cache: AccountId, log: seq<Event>)
    requires !origin.Signed?
    ensures results == [Err(BadOrigin), Err(BadOrigin), Err(BadOrigin), Err(BadOrigin), Err(BadOrigin)]
    ensures size == 0 && cache == DefaultAccount && log == []
  {
    var p := new Pallet();
    var r1 := p.DoSomething(origin, v);
    var r2 := p.InsertEntry(origin, v);
    var r3 := p.GetEntry(origin, a);
    var r4 := p.IncreaseEntry(origin, v);
    var r5 := p.UpdateCache(origin);
    results := [r1, r2, r3, r4, r5];
    size, cache, log := |p.simpleMap|, p.userCache, p.events;
  }
}
