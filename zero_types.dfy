/**
 * Value types shared by the zero pallet: the unsigned 32-bit counter, the
 * account identity, the call origin, the error kinds and the events.
 */
module ZeroTypes {

  /** Largest value of an unsigned 32-bit integer (`u32::MAX`). */
  const U32_MAX: int := 0xFFFF_FFFF

  /** Rust's `u32`. */
  newtype u32 = x: int | 0 <= x <= 0xFFFF_FFFF

  /**
   * The runtime's account identity. It is opaque to the pallet: only
   * compared, hashed into storage keys and copied into events.
   */
  datatype AccountId = AccountId(raw: nat)

  /** The account's `Default` value, held by the cache slot before its first write. */
  const DefaultAccount: AccountId := AccountId(0)

  /** The origin of a dispatched call, as the host runtime hands it to the pallet. */
  datatype Origin =
    | Root
    | Signed(who: AccountId)
    | Unsigned

  /** The pallet's own errors (`ZeroError`). */
  datatype ZeroError = NoValueStored | MaxValueReached

  /** What a dispatchable call may fail with: the host's `BadOrigin` or one of the pallet's errors. */
  datatype DispatchError = BadOrigin | Module(err: ZeroError)

  datatype Option<T> = None | Some(value: T) {
    /** Rust's `Option::ok_or`. */
    function OkOr(error: DispatchError): (r: Result<T>)
      ensures r.Ok? <==> Some?
      ensures r.Ok? ==> r.value == value
      ensures r.Err? ==> r.error == error
    {
      match this
      case Some(v) => Ok(v)
      case None => Err(error)
    }
  }

  /** Rust's `Result<T, DispatchError>`, usable with `:-` as Rust's `?`. */
  datatype Result<T> = Ok(value: T) | Err(error: DispatchError) {
    predicate IsFailure() {
      Err?
    }

    function PropagateFailure<U>(): Result<U>
      requires Err?
    {
      Err(error)
    }

    function Extract(): T
      requires Ok?
    {
      value
    }
  }

  /** What every dispatchable call returns. */
  type DispatchResult = Result<()>

  /** The events the pallet deposits, one per successful call. */
  datatype Event =
    | EmitInput(AccountId, u32)
    | InsertEntry(AccountId, u32)
    | GetEntry(AccountId, u32)
    | IncreaseEntry(AccountId, u32, u32)
    | UpdateCache(AccountId, AccountId)

  /**
   * `ensure_signed`: the signer of a signed origin; every other origin
   * (root or unsigned) is rejected with `BadOrigin`.
   */
  function EnsureSigned(origin: Origin): (r: Result<AccountId>)
    ensures r.Ok? <==> origin.Signed?
    ensures r.Ok? ==> r.value == origin.who
    ensures r.Err? ==> r.error == BadOrigin
  {
    match origin
    case Signed(who) => Ok(who)
    case _ => Err(BadOrigin)
  }

  /** Addition modulo 2^32, as the machine adds two `u32` words. */
  function WrappingAdd(a: u32, b: u32): u32 {
    ((a as int + b as int) % 0x1_0000_0000) as u32
  }

  /**
   * `u32::checked_add`: the machine sum, rejected when the carry shows
   * (the wrapped sum is below an operand). The contract says that this
   * is exactly the overflow case and that an accepted sum never wrapped.
   */
  function CheckedAdd(a: u32, b: u32): (r: Option<u32>)
    ensures r.None? <==> a as int + b as int > U32_MAX
    ensures r.Some? ==> r.value as int == a as int + b as int
  {
    var wrapped := WrappingAdd(a, b);
    if wrapped < a then None else Some(wrapped)
  }
}
