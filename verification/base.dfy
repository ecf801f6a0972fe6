/** Shared vocabulary of the security-token model: the AVM integer widths the
    contract's ABI types carry, account addresses, byte strings, and the outcome
    of a call, which either aborts with an error or commits a value. */
module Base {

  const MAX_U8: nat := 0xFF
  const MAX_U64: nat := 0xFFFF_FFFF_FFFF_FFFF
  const MAX_U256: nat := 0xFFFF_FFFF_FFFF_FFFF_FFFF_FFFF_FFFF_FFFF_FFFF_FFFF_FFFF_FFFF_FFFF_FFFF_FFFF_FFFF

  /** `arc4.UintN8`, `arc4.UintN64` and `arc4.UintN256`: unsigned integers that
      cannot hold a value wider than their encoding. */
  type U8 = x: nat | x <= MAX_U8
  type U64 = x: nat | x <= MAX_U64
  type U256 = x: nat | x <= MAX_U256

  type Bytes = seq<bv8>

  /** An Algorand account address. ABI decoding delivers exactly 32 bytes; the
      model does not constrain the length, and no property here depends on it. */
  datatype Address = Address(bytes: Bytes)

  /** `new arc4.Address()`: the all-zero address. */
  const ZERO_ADDRESS: Address :=
    Address([0, 0, 0, 0, 0, 0, 0, 0, 0, 0, 0, 0, 0, 0, 0, 0,
             0, 0, 0, 0, 0, 0, 0, 0, 0, 0, 0, 0, 0, 0, 0, 0])

  /** A global-state slot or box that may not hold a value yet. */
  datatype Option<+T> = None | Some(value: T)

  /** Why a call aborts. The first group mirrors the contract's assert messages;
      the last three are AVM panics: reading a slot that holds no value, and a
      uint256 result that does not fit or would be negative. */
  datatype Error =
    | OnlyOwner              // 'only_owner'
    | NotAuth                // 'not_auth'
    | InvalidAmount          // 'invalid_amount'
    | InsufficientBalance    // 'insufficient_balance'
    | NoController           // 'no_controller'
    | NotController          // 'not_controller'
    | ControllerDisabled     // 'controller_disabled'
    | JustificationRequired  // 'justification_required'
    | RateLimited            // 'rate_limited'
    | SameAddr               // 'same_addr'
    | Insufficient           // 'insufficient'
    | EmptyName              // 'empty_name'
    | NotFound               // 'not_found'
    | NotCreator             // only the deployer may bootstrap
    | NameTooShort
    | NameTooLong
    | SymbolTooShort
    | SymbolTooLong
    | AlreadyBootstrapped    // 'This method can be called only once'
    | NoValue
    | Overflow
    | Underflow

  /** Every call either aborts with no effect (`Err`) or commits (`Ok`). */
  datatype Result<+T> = Ok(value: T) | Err(error: Error) {

    predicate IsFailure() {
      Err?
    }

    function PropagateFailure<U>(): Result<U>
      requires Err?
    {
      Err(error)
    }

    function Extract(): T
      requires Ok?
    {
      value
    }
  }

  /** A guard that either lets the call continue or aborts it. */
  datatype Check = Pass | Fail(error: Error)

  /** The identity and context the platform supplies with every call:
      `Txn.sender` and `Global.round`. */
  datatype Txn = Txn(sender: Address, round: U64)
}
