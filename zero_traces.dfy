/**
 * Sequences of calls. The host runs dispatchable calls one at a time
 * against the same storage; `Run` replays a trace of them and the lemmas
 * state what holds of every trace: keys are never removed, the event log
 * only grows and by one entry per successful call, unsigned callers change
 * nothing, and the log accounts for every stored value and for every
 * change of the cache slot.
 */
module ZeroTraces {
  import opened ZeroTypes
  import opened ZeroTransitions

  /** One dispatched call: who sent it and what it asks for. */
  datatype Invocation = Invocation(origin: Origin, call: Call)

  /** The state after a trace and each call's result, in order. */
  datatype Execution = Execution(state: PalletState, results: seq<DispatchResult>)

  /** Dispatch the calls of `trace` in order, starting from `s`. */
  function Run(s: PalletState, trace: seq<Invocation>): (e: Execution)
    ensures |e.results| == |trace|
    ensures s.events <= e.state.events
    ensures s.simpleMap.Keys <= e.state.simpleMap.Keys
    decreases |trace|
  {
    if trace == [] then Execution(s, [])
    else
      var before := Run(s, trace[..|trace| - 1]);
      var last := trace[|trace| - 1];
      var o := Dispatch(before.state, last.origin, last.call);
      Execution(o.state, before.results + [o.result])
  }

  /** How many of `results` are successes. */
  function Successes(results: seq<DispatchResult>): nat
    decreases |results|
  {
    if results == [] then 0
    else Successes(results[..|results| - 1]) + (if results[|results| - 1].Ok? then 1 else 0)
  }

  /** The events a trace added to the log of its starting state. */
  function Emitted(s: PalletState, e: Execution): seq<Event>
    requires s.events <= e.state.events
  {
    e.state.events[|s.events|..]
  }

  /** The value the last `InsertEntry` or `IncreaseEntry` event of `events` reports for `k`, if any. */
  function LastWrite(events: seq<Event>, k: AccountId): Option<u32>
    decreases |events|
  {
    if events == [] then None
    else
      var earlier := LastWrite(events[..|events| - 1], k);
      match events[|events| - 1]
      case InsertEntry(user, value) => if user == k then Some(value) else earlier
      case IncreaseEntry(user, _, newValue) => if user == k then Some(newValue) else earlier
      case _ => earlier
  }

  /**
   * The `UpdateCache` events of `events` form an unbroken chain of cache
   * transitions from `start` to `end`: each one's old account is the
   * previous one's new account (the first's is `start`), and the last new
   * account is `end` (with no such event, `start == end`).
   */
  ghost predicate CacheChain(events: seq<Event>, start: AccountId, end: AccountId)
    decreases |events|
  {
    if events == [] then start == end
    else
      match events[|events| - 1]
      case UpdateCache(oldUser, newUser) =>
        newUser == end && CacheChain(events[..|events| - 1], start, oldUser)
      case _ => CacheChain(events[..|events| - 1], start, end)
  }

  /** Running one more call extends the trace's execution by that call's outcome. */
  lemma RunSnoc(s: PalletState, trace: seq<Invocation>, inv: Invocation)
    ensures var before := Run(s, trace);
            var o := Dispatch(before.state, inv.origin, inv.call);
            Run(s, trace + [inv]) == Execution(o.state, before.results + [o.result])
  {
    assert (trace + [inv])[..|trace|] == trace;
  }

  /** The log grows by exactly one event per successful call of the trace, and by none per failure. */
  lemma {:induction false} OneEventPerSuccess(s: PalletState, trace: seq<Invocation>)
    ensures |Run(s, trace).state.events| == |s.events| + Successes(Run(s, trace).results)
    decreases |trace|
  {
    if trace != [] {
      var prefix := trace[..|trace| - 1];
      var last := trace[|trace| - 1];
      assert trace == prefix + [last];
      OneEventPerSuccess(s, prefix);
      RunSnoc(s, prefix, last);
      var rs := Run(s, trace).results;
      assert rs[..|rs| - 1] == Run(s, prefix).results;
    }
  }

  /** A trace in which no call is signed fails every call with `BadOrigin` and changes nothing. */
  lemma {:induction false} UnsignedTraceChangesNothing(s: PalletState, trace: seq<Invocation>)
    requires forall i :: 0 <= i < |trace| ==> !trace[i].origin.Signed?
    ensures Run(s, trace).state == s
    ensures forall i :: 0 <= i < |trace| ==> Run(s, trace).results[i] == Err(BadOrigin)
    decreases |trace|
  {
    if trace != [] {
      var prefix := trace[..|trace| - 1];
      var last := trace[|trace| - 1];
      assert trace == prefix + [last];
      UnsignedTraceChangesNothing(s, prefix);
      RunSnoc(s, prefix, last);
    }
  }

  /**
   * An account that had no entry and never called `insert_entry` still has
   * none, so `get_entry` on it and its own `increase_entry` fail with
   * `NoValueStored`.
   */
  lemma {:induction false} NeverInsertedHasNoEntry(s: PalletState, trace: seq<Invocation>, k: AccountId)
    requires k !in s.simpleMap
    requires forall i :: 0 <= i < |trace| ==> !(trace[i].origin == Signed(k) && trace[i].call.InsertEntry?)
    ensures k !in Run(s, trace).state.simpleMap
    ensures forall caller :: GetEntryStep(Run(s, trace).state, Signed(caller), k).result == Err(Module(NoValueStored))
    ensures forall add: u32 :: IncreaseEntryStep(Run(s, trace).state, Signed(k), add).result == Err(Module(NoValueStored))
    decreases |trace|
  {
    if trace != [] {
      var prefix := trace[..|trace| - 1];
      var last := trace[|trace| - 1];
      assert trace == prefix + [last];
      NeverInsertedHasNoEntry(s, prefix, k);
      RunSnoc(s, prefix, last);
      var before := Run(s, prefix).state;
      match last.call
      case InsertEntry(value) =>
        var o := InsertEntryStep(before, last.origin, value);
        if o.result.Ok? {
          assert AgreeExcept(before.simpleMap, o.state.simpleMap, last.origin.who);
        }
      case IncreaseEntry(addThisVal) =>
      case _ =>
    }
  }

  /** What `LastWrite` reports for `a + b` is `b`'s last write, or else `a`'s. */
  lemma {:induction false} LastWriteAppend(a: seq<Event>, b: seq<Event>, k: AccountId)
    ensures LastWrite(a + b, k) == if LastWrite(b, k).Some? then LastWrite(b, k) else LastWrite(a, k)
    decreases |b|
  {
    if b != [] {
      assert (a + b)[..|a + b| - 1] == a + b[..|b| - 1];
      LastWriteAppend(a, b[..|b| - 1], k);
    } else {
      assert a + b == a;
    }
  }

  /** Chains of cache transitions compose: `start` to `mid`, then `mid` to `end`. */
  lemma {:induction false} CacheChainAppend(a: seq<Event>, b: seq<Event>, start: AccountId, mid: AccountId, end: AccountId)
    requires CacheChain(a, start, mid)
    requires CacheChain(b, mid, end)
    ensures CacheChain(a + b, start, end)
    decreases |b|
  {
    if b == [] {
      assert a + b == a;
    } else {
      assert (a + b)[..|a + b| - 1] == a + b[..|b| - 1];
      match b[|b| - 1]
      case UpdateCache(oldUser, newUser) =>
        CacheChainAppend(a, b[..|b| - 1], start, mid, oldUser);
      case _ =>
        CacheChainAppend(a, b[..|b| - 1], start, mid, end);
    }
  }

  /** One call's own event accounts for its effect on the entry of `k`. */
  lemma DispatchLogsEntryWrites(s: PalletState, origin: Origin, call: Call, k: AccountId)
    ensures var o := Dispatch(s, origin, call);
            var w := LastWrite(o.state.events[|s.events|..], k);
            && (w.Some? ==> k in o.state.simpleMap && o.state.simpleMap[k] == w.value)
            && (w.None? ==>
                  (k in o.state.simpleMap <==> k in s.simpleMap) &&
                  (k in s.simpleMap ==> o.state.simpleMap[k] == s.simpleMap[k]))
  {
    var o := Dispatch(s, origin, call);
    var log := o.state.events[|s.events|..];
    if o.result.Err? {
      assert log == [];
    } else {
      var user := origin.who;
      match call
      case InsertEntry(value) =>
        assert log == [Event.InsertEntry(user, value)] && log[..0] == [];
        assert LastWrite(log, k) == if user == k then Some(value) else None;
        assert AgreeExcept(s.simpleMap, o.state.simpleMap, user);
      case IncreaseEntry(addThisVal) =>
        var newValue := o.state.simpleMap[user];
        assert log == [Event.IncreaseEntry(user, s.simpleMap[user], newValue)] && log[..0] == [];
        assert LastWrite(log, k) == if user == k then Some(newValue) else None;
        assert AgreeExcept(s.simpleMap, o.state.simpleMap, user);
      case DoSomething(input) =>
        assert log == [Event.EmitInput(user, input)] && log[..0] == [];
        assert LastWrite(log, k) == None;
      case GetEntry(account) =>
        assert log == [Event.GetEntry(user, s.simpleMap[account])] && log[..0] == [];
        assert LastWrite(log, k) == None;
      case UpdateCache =>
        assert log == [Event.UpdateCache(s.userCache, user)] && log[..0] == [];
        assert LastWrite(log, k) == None;
    }
  }

  /** One call's own event accounts for its effect on the cache slot. */
  lemma DispatchLogsCacheWrites(s: PalletState, origin: Origin, call: Call)
    ensures var o := Dispatch(s, origin, call);
            CacheChain(o.state.events[|s.events|..], s.userCache, o.state.userCache)
  {
    var o := Dispatch(s, origin, call);
    var log := o.state.events[|s.events|..];
    if o.result.Err? {
      assert log == [];
    } else {
      assert |log| == 1 && log[..0] == [];
      if call.UpdateCache? {
        assert log == [Event.UpdateCache(s.userCache, origin.who)];
      } else {
        assert !log[0].UpdateCache?;
      }
    }
  }

  /**
   * After any trace, the entry of every account is what the trace's last
   * logged write for it says; an account the log never writes keeps the
   * entry (or the absence of one) it started with.
   */
  lemma {:induction false} StoredValueIsLastLogged(s: PalletState, trace: seq<Invocation>, k: AccountId)
    ensures var e := Run(s, trace);
            var w := LastWrite(Emitted(s, e), k);
            && (w.Some? ==> k in e.state.simpleMap && e.state.simpleMap[k] == w.value)
            && (w.None? ==>
                  (k in e.state.simpleMap <==> k in s.simpleMap) &&
                  (k in s.simpleMap ==> e.state.simpleMap[k] == s.simpleMap[k]))
    decreases |trace|
  {
    if trace == [] {
      assert Emitted(s, Run(s, trace)) == [];
    } else {
      var prefix := trace[..|trace| - 1];
      var last := trace[|trace| - 1];
      assert trace == prefix + [last];
      StoredValueIsLastLogged(s, prefix, k);
      RunSnoc(s, prefix, last);
      var before := Run(s, prefix);
      var o := Dispatch(before.state, last.origin, last.call);
      DispatchLogsEntryWrites(before.state, last.origin, last.call, k);
      var earlier := Emitted(s, before);
      var step := o.state.events[|before.state.events|..];
      assert Emitted(s, Run(s, trace)) == earlier + step;
      LastWriteAppend(earlier, step, k);
    }
  }

  /**
   * After any trace, the `UpdateCache` events it emitted chain the cache
   * slot from its starting account to its final one: every overwrite of the
   * slot is logged with the account it replaced.
   */
  lemma {:induction false} CacheChangesAreLogged(s: PalletState, trace: seq<Invocation>)
    ensures CacheChain(Emitted(s, Run(s, trace)), s.userCache, Run(s, trace).state.userCache)
    decreases |trace|
  {
    if trace == [] {
      assert Emitted(s, Run(s, trace)) == [];
    } else {
      var prefix := trace[..|trace| - 1];
      var last := trace[|trace| - 1];
      assert trace == prefix + [last];
      CacheChangesAreLogged(s, prefix);
      RunSnoc(s, prefix, last);
      var before := Run(s, prefix);
      var o := Dispatch(before.state, last.origin, last.call);
      DispatchLogsCacheWrites(before.state, last.origin, last.call);
      var earlier := Emitted(s, before);
      var step := o.state.events[|before.state.events|..];
      assert Emitted(s, Run(s, trace)) == earlier + step;
      CacheChainAppend(earlier, step, s.userCache, before.state.userCache, o.state.userCache);
    }
  }
}
