/**
 * The pallet's storage and event log as one value, and each dispatchable
 * call as a function from the state before the call to the state after it
 * together with the call's result. The class `PalletZero.Pallet` is proved
 * to follow these functions; their contracts state what each call promises.
 */
module ZeroTransitions {
  import opened ZeroTypes

  /**
   * `SimpleMap` (account to counter), `UserCache` (one account) and the
   * events deposited so far.
   */
  datatype PalletState = PalletState(
    simpleMap: map<AccountId, u32>,
    userCache: AccountId,
    events: seq<Event>)

  /** Storage before any call: no entries, the cache slot at its default. */
  const Genesis: PalletState := PalletState(map[], DefaultAccount, [])

  /** The state after a call and what the call returned. */
  datatype Outcome = Outcome(state: PalletState, result: DispatchResult)

  /** The dispatchable calls with their arguments (the caller comes with the origin). */
  datatype Call =
    | DoSomething(input: u32)
    | InsertEntry(value: u32)
    | GetEntry(account: AccountId)
    | IncreaseEntry(addThisVal: u32)
    | UpdateCache

  /** `m` and `m'` hold the same keys with the same values, except perhaps at `key`. */
  ghost predicate AgreeExcept(m: map<AccountId, u32>, m': map<AccountId, u32>, key: AccountId) {
    forall k :: k != key ==> (k in m <==> k in m') && (k in m ==> m[k] == m'[k])
  }

  /** `deposit_event`: append one event to the log. */
  function Deposit(s: PalletState, e: Event): PalletState {
    s.(events := s.events + [e])
  }

  /** `do_something(origin, input)`: no storage change, one `EmitInput` event. */
  function DoSomethingStep(s: PalletState, origin: Origin, input: u32): (o: Outcome)
    ensures o.result.Err? <==> !origin.Signed?
    ensures o.result.Err? ==> o == Outcome(s, Err(BadOrigin))
    ensures o.state.simpleMap == s.simpleMap && o.state.userCache == s.userCache
    ensures o.result.Ok? ==> o.state.events == s.events + [Event.EmitInput(origin.who, input)]
  {
    match EnsureSigned(origin)
    case Err(e) => Outcome(s, Err(e))
    case Ok(user) => Outcome(Deposit(s, Event.EmitInput(user, input)), Ok(()))
  }

  /**
   * `insert_entry(origin, value)`: the caller's entry becomes `value`
   * whether or not it existed; every other entry and the cache stay.
   */
  function InsertEntryStep(s: PalletState, origin: Origin, value: u32): (o: Outcome)
    ensures o.result.Err? <==> !origin.Signed?
    ensures o.result.Err? ==> o == Outcome(s, Err(BadOrigin))
    ensures o.result.Ok? ==>
      && o.state.simpleMap.Keys == s.simpleMap.Keys + {origin.who}
      && o.state.simpleMap[origin.who] == value
      && AgreeExcept(s.simpleMap, o.state.simpleMap, origin.who)
      && o.state.userCache == s.userCache
      && o.state.events == s.events + [Event.InsertEntry(origin.who, value)]
  {
    match EnsureSigned(origin)
    case Err(e) => Outcome(s, Err(e))
    case Ok(user) =>
      var written := s.(simpleMap := s.simpleMap[user := value]);
      Outcome(Deposit(written, Event.InsertEntry(user, value)), Ok(()))
  }

  /**
   * `get_entry(origin, account)`: fails with `NoValueStored` when `account`
   * has no entry; otherwise reports the caller together with the value
   * stored for `account`. Storage never changes.
   */
  function GetEntryStep(s: PalletState, origin: Origin, account: AccountId): (o: Outcome)
    ensures o.state.simpleMap == s.simpleMap && o.state.userCache == s.userCache
    ensures o.result == Err(BadOrigin) <==> !origin.Signed?
    ensures o.result == Err(Module(NoValueStored)) <==> origin.Signed? && account !in s.simpleMap
    ensures o.result.Ok? <==> origin.Signed? && account in s.simpleMap
    ensures o.result.Err? ==> o.state == s
    ensures o.result.Ok? ==>
      && account in s.simpleMap
      && o.state.events == s.events + [Event.GetEntry(origin.who, s.simpleMap[account])]
  {
    match EnsureSigned(origin)
    case Err(e) => Outcome(s, Err(e))
    case Ok(user) =>
      if account !in s.simpleMap then Outcome(s, Err(Module(NoValueStored)))
      else Outcome(Deposit(s, Event.GetEntry(user, s.simpleMap[account])), Ok(()))
  }

  /**
   * `increase_entry(origin, addThisVal)`: adds to the caller's own entry.
   * Fails with `NoValueStored` when there is none and with `MaxValueReached`
   * exactly when the sum exceeds `u32::MAX`; the stored value never wraps.
   */
  function IncreaseEntryStep(s: PalletState, origin: Origin, addThisVal: u32): (o: Outcome)
    ensures o.result == Err(BadOrigin) <==> !origin.Signed?
    ensures o.result == Err(Module(NoValueStored)) <==> origin.Signed? && origin.who !in s.simpleMap
    ensures o.result == Err(Module(MaxValueReached)) <==>
      && origin.Signed? && origin.who in s.simpleMap
      && s.simpleMap[origin.who] as int + addThisVal as int > U32_MAX
    ensures o.result.Err? ==> o.state == s
    ensures o.result.Ok? ==>
      && origin.who in s.simpleMap
      && o.state.simpleMap.Keys == s.simpleMap.Keys
      && o.state.simpleMap[origin.who] as int == s.simpleMap[origin.who] as int + addThisVal as int
      && AgreeExcept(s.simpleMap, o.state.simpleMap, origin.who)
      && o.state.userCache == s.userCache
      && o.state.events == s.events + [Event.IncreaseEntry(origin.who, s.simpleMap[origin.who], o.state.simpleMap[origin.who])]
  {
    match EnsureSigned(origin)
    case Err(e) => Outcome(s, Err(e))
    case Ok(user) =>
      if user !in s.simpleMap then Outcome(s, Err(Module(NoValueStored)))
      else
        var originalValue := s.simpleMap[user];
        match CheckedAdd(originalValue, addThisVal).OkOr(Module(MaxValueReached))
        case Err(e) => Outcome(s, Err(e))
        case Ok(newValue) =>
          var written := s.(simpleMap := s.simpleMap[user := newValue]);
          Outcome(Deposit(written, Event.IncreaseEntry(user, originalValue, newValue)), Ok(()))
  }

  /**
   * `update_cache(origin)`: the cache slot becomes the caller, and the event
   * records the transition from the value read before the write.
   */
  function UpdateCacheStep(s: PalletState, origin: Origin): (o: Outcome)
    ensures o.result.Err? <==> !origin.Signed?
    ensures o.result.Err? ==> o == Outcome(s, Err(BadOrigin))
    ensures o.state.simpleMap == s.simpleMap
    ensures o.result.Ok? ==>
      && o.state.userCache == origin.who
      && o.state.events == s.events + [Event.UpdateCache(s.userCache, origin.who)]
  {
    match EnsureSigned(origin)
    case Err(e) => Outcome(s, Err(e))
    case Ok(user) =>
      var oldUser := s.userCache;
      Outcome(Deposit(s.(userCache := user), Event.UpdateCache(oldUser, user)), Ok(()))
  }

  /**
   * Route a call to its step. Whatever the call: an unsigned origin and
   * only that fails with `BadOrigin`; a failure leaves storage and the log
   * as they were; no key is ever removed; a success appends exactly one
   * event and rewrites none; only `update_cache` touches the cache slot.
   */
  function Dispatch(s: PalletState, origin: Origin, call: Call): (o: Outcome)
    ensures o.result == Err(BadOrigin) <==> !origin.Signed?
    ensures o.result.Err? ==> o.state == s
    ensures s.simpleMap.Keys <= o.state.simpleMap.Keys
    ensures |o.state.events| == |s.events| + (if o.result.Ok? then 1 else 0)
    ensures s.events <= o.state.events
    ensures !call.UpdateCache? ==> o.state.userCache == s.userCache
  {
    match call
    case DoSomething(input) => DoSomethingStep(s, origin, input)
    case InsertEntry(value) => InsertEntryStep(s, origin, value)
    case GetEntry(account) => GetEntryStep(s, origin, account)
    case IncreaseEntry(addThisVal) => IncreaseEntryStep(s, origin, addThisVal)
    case UpdateCache => UpdateCacheStep(s, origin)
  }
}
