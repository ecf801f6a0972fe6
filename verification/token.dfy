/** The persistent state of one deployed security token (`Arc1400`, which
    extends the controller, compliance and ARC-200 layers), kept as one
    immutable record. Each component's slots are grouped in their own record;
    a slot that may be unset is an `Option`, a box map is a `map`. */
module TokenState {
  import opened Base
  import opened Ledger

  /** ARC-200 metadata written once by bootstrap. */
  datatype Metadata = Metadata(name: Option<Bytes>, symbol: Option<Bytes>, decimals: Option<U8>)

  /** Compliance flags (`Arc1594`): the `hlt` global (1 = halted), the `kyc` and
      `lku` box maps, and the issuable flag bootstrap switches on. */
  datatype Gate = Gate(
    halt: Option<U64>,
    kyc: map<Address, U64>,
    lockupUntil: map<Address, U64>,
    issuable: Option<bool>)

  /** Controller configuration (`Arc1644`): globals `ctrl`, `ctrlen`, `rjust`,
      `lcar` and `mcai`. */
  datatype Control = Control(
    controller: Option<Address>,
    controllable: Option<bool>,
    requireJustification: Option<bool>,
    lastActionRound: Option<U64>,
    minActionInterval: Option<U64>)

  /** The whole token. `creator` is `Global.creatorAddress`, fixed at deployment. */
  datatype Token = Token(
    creator: Address,
    owner: Address,
    meta: Metadata,
    balances: Balances,
    totalSupply: Option<U256>,
    gate: Gate,
    control: Control)

  /** `arc88_is_owner(a)`. */
  predicate IsOwner(s: Token, a: Address) {
    a == s.owner
  }

  /** Bootstrap has run: the total supply slot holds a value. */
  predicate Bootstrapped(s: Token) {
    s.totalSupply.Some?
  }

  /** Conservation: before bootstrap nobody holds anything; afterwards the total
      supply is exactly the sum of all balances. */
  ghost predicate SupplyInvariant(s: Token) {
    match s.totalSupply
    case None => Total(s.balances) == 0
    case Some(t) => t == Total(s.balances)
  }

  /** The state of a freshly created application: every slot unset, every box
      absent, and the owner slot at its initial value, the zero address. */
  function Fresh(creator: Address): (s: Token)
    ensures !Bootstrapped(s) && SupplyInvariant(s)
  {
    Token(
      creator,
      ZERO_ADDRESS,
      Metadata(None, None, None),
      map[],
      None,
      Gate(None, map[], map[], None),
      Control(None, None, None, None, None))
  }
}
