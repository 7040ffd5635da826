/**
 * The zero pallet as the runtime runs it: persistent storage (`SimpleMap`,
 * `UserCache`) and the event log, updated in place by five dispatchable
 * calls. Each call authenticates its origin, checks its preconditions,
 * writes storage and deposits one event, in that order; a call that fails
 * returns before the first write.
 *
 * Every method is proved to follow its step in `ZeroTransitions`, so the
 * properties proved there and in `ZeroTraces` hold of the object.
 */
module PalletZero {
  import opened ZeroTypes
  import T = ZeroTransitions

  class Pallet {
    /** `SimpleMap`: account to counter. */
    var simpleMap: map<AccountId, u32>
    /** `UserCache`: one account, `DefaultAccount` until first written. */
    var userCache: AccountId
    /** The events deposited so far, oldest first. */
    var events: seq<Event>

    /** The storage and the log as one value. */
    function State(): T.PalletState
      reads this
    {
      T.PalletState(simpleMap, userCache, events)
    }

    /** Empty storage, the cache at its default, no events. */
    constructor ()
      ensures State() == T.Genesis
      ensures simpleMap == map[] && userCache == DefaultAccount && events == []
    {
      simpleMap := map[];
      userCache := DefaultAccount;
      events := [];
    }

    /** `do_something`: echo the input in an `EmitInput` event, storage untouched. */
    method DoSomething(origin: Origin, input: u32) returns (r: DispatchResult)
      modifies this
      ensures T.Outcome(State(), r) == T.DoSomethingStep(old(State()), origin, input)
      ensures r.Err? <==> !origin.Signed?
      ensures r.Err? ==> r.error == BadOrigin && unchanged(this)
      ensures simpleMap == old(simpleMap) && userCache == old(userCache)
      ensures r.Ok? ==> events == old(events) + [EmitInput(origin.who, input)]
    {
      var user :- EnsureSigned(origin);
      events := events + [EmitInput(user, input)];
      r := Ok(());
    }

    /** `insert_entry`: store `value` for the caller, replacing any earlier value. */
    method InsertEntry(origin: Origin, value: u32) returns (r: DispatchResult)
      modifies this
      ensures T.Outcome(State(), r) == T.InsertEntryStep(old(State()), origin, value)
      ensures r.Err? <==> !origin.Signed?
      ensures r.Err? ==> r.error == BadOrigin && unchanged(this)
      ensures r.Ok? ==>
        && simpleMap == old(simpleMap)[origin.who := value]
        && userCache == old(userCache)
        && events == old(events) + [Event.InsertEntry(origin.who, value)]
    {
      var user :- EnsureSigned(origin);
      simpleMap := simpleMap[user := value];
      events := events + [Event.InsertEntry(user, value)];
      r := Ok(());
    }

    /** `get_entry`: report the value stored for `account`, paired with the caller. */
    method GetEntry(origin: Origin, account: AccountId) returns (r: DispatchResult)
      modifies this
      ensures T.Outcome(State(), r) == T.GetEntryStep(old(State()), origin, account)
      ensures simpleMap == old(simpleMap) && userCache == old(userCache)
      ensures r == Err(BadOrigin) <==> !origin.Signed?
      ensures r == Err(Module(NoValueStored)) <==> origin.Signed? && account !in old(simpleMap)
      ensures r.Ok? <==> origin.Signed? && account in old(simpleMap)
      ensures r.Err? ==> unchanged(this)
      ensures r.Ok? ==> events == old(events) + [Event.GetEntry(origin.who, old(simpleMap)[account])]
    {
      var user :- EnsureSigned(origin);
      if account !in simpleMap {
        return Err(Module(NoValueStored));
      }
      var value := simpleMap[account];
      events := events + [Event.GetEntry(user, value)];
      r := Ok(());
    }

    /**
     * `increase_entry`: add to the caller's own entry with overflow-checked
     * addition; on overflow nothing is written.
     */
    method IncreaseEntry(origin: Origin, addThisVal: u32) returns (r: DispatchResult)
      modifies this
      ensures T.Outcome(State(), r) == T.IncreaseEntryStep(old(State()), origin, addThisVal)
      ensures r == Err(BadOrigin) <==> !origin.Signed?
      ensures r == Err(Module(NoValueStored)) <==> origin.Signed? && origin.who !in old(simpleMap)
      ensures r == Err(Module(MaxValueReached)) <==>
        && origin.Signed? && origin.who in old(simpleMap)
        && old(simpleMap)[origin.who] as int + addThisVal as int > U32_MAX
      ensures r.Err? ==> unchanged(this)
      ensures r.Ok? ==>
        && origin.who in old(simpleMap)
        && simpleMap.Keys == old(simpleMap).Keys
        && simpleMap[origin.who] as int == old(simpleMap)[origin.who] as int + addThisVal as int
        && (forall k :: k in simpleMap && k != origin.who ==> simpleMap[k] == old(simpleMap)[k])
        && userCache == old(userCache)
        && events == old(events) + [Event.IncreaseEntry(origin.who, old(simpleMap)[origin.who], simpleMap[origin.who])]
    {
      var user :- EnsureSigned(origin);
      if user !in simpleMap {
        return Err(Module(NoValueStored));
      }
      var originalValue := simpleMap[user];
      var newValue :- CheckedAdd(originalValue, addThisVal).OkOr(Module(MaxValueReached));
      simpleMap := simpleMap[user := newValue];
      events := events + [Event.IncreaseEntry(user, originalValue, newValue)];
      r := Ok(());
    }

    /**
     * `update_cache`: read the cached account, then overwrite it with the
     * caller, and log the transition from the account read to the caller.
     */
    method UpdateCache(origin: Origin) returns (r: DispatchResult)
      modifies this
      ensures T.Outcome(State(), r) == T.UpdateCacheStep(old(State()), origin)
      ensures r.Err? <==> !origin.Signed?
      ensures r.Err? ==> r.error == BadOrigin && unchanged(this)
      ensures simpleMap == old(simpleMap)
      ensures r.Ok? ==>
        && userCache == origin.who
        && events == old(events) + [Event.UpdateCache(old(userCache), origin.who)]
    {
      var user :- EnsureSigned(origin);
      var oldUser := userCache;
      userCache := user;
      events := events + [Event.UpdateCache(oldUser, user)];
      r := Ok(());
    }
  }
}
