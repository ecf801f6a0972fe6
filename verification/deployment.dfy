/** Bootstrap of the security token (`Arc1400`): the deployer initialises the
    metadata once, receives the whole initial supply, seeds the controller
    configuration and hands ownership to the requested owner. */
module Deployment {
  import opened Base
  import opened Ledger
  import opened TokenState

  /** `bootstrap1400(name, symbol, decimals, totalSupply, owner, controller,
      controllable, requireJustification, minControllerActionInterval)`. The
      owner is first initialised to the sender and then transferred when the
      requested owner differs. */
  function Bootstrap1400(
    s: Token, tx: Txn, name: Bytes, symbol: Bytes, decimals: U8, supply: U256,
    owner: Address, controller: Address, controllable: bool, requireJustification: bool,
    minInterval: U64): (r: Result<Token>)
    ensures tx.sender != s.creator ==> r == Err(NotCreator)
    ensures r.Ok? <==>
      && tx.sender == s.creator
      && 1 <= |name| <= 32
      && 1 <= |symbol| <= 8
      && !Bootstrapped(s)
    ensures r.Ok? ==> Bootstrapped(r.value) && r.value.totalSupply == Some(supply)
    ensures r.Ok? ==> BalanceOf(r.value.balances, tx.sender) == supply
    ensures r.Ok? ==> forall a :: a != tx.sender ==> BalanceOf(r.value.balances, a) == BalanceOf(s.balances, a)
    ensures r.Ok? ==> r.value.owner == owner
    ensures r.Ok? ==> r.value.meta == Metadata(Some(name), Some(symbol), Some(decimals))
    ensures r.Ok? ==>
      r.value.control == Control(Some(controller), Some(controllable), Some(requireJustification), Some(0), Some(minInterval))
    ensures r.Ok? ==> r.value.gate == s.gate.(issuable := Some(true))
    ensures r.Ok? ==> r.value.creator == s.creator
  {
    if tx.sender != s.creator then Err(NotCreator)
    else if |name| == 0 then Err(NameTooShort)
    else if |name| > 32 then Err(NameTooLong)
    else if |symbol| == 0 then Err(SymbolTooShort)
    else if |symbol| > 8 then Err(SymbolTooLong)
    else if s.totalSupply.Some? then Err(AlreadyBootstrapped)
    else
      var s := s.(owner := tx.sender);
      var s := s.(meta := Metadata(Some(name), Some(symbol), Some(decimals)), totalSupply := Some(supply));
      var s := s.(gate := s.gate.(issuable := Some(true)));
      var s := s.(balances := s.balances[tx.sender := supply]);
      var s := s.(control := Control(Some(controller), Some(controllable), Some(requireJustification), Some(0), Some(minInterval)));
      var s := if tx.sender != owner then s.(owner := owner) else s;
      Ok(s)
  }

  /** `bootstrap(name, symbol, decimals, totalSupply)`: the sender becomes owner
      and controller, control is enabled and justification is required, and the
      rate limiter is off. */
  function Bootstrap(s: Token, tx: Txn, name: Bytes, symbol: Bytes, decimals: U8, supply: U256)
    : (r: Result<Token>)
    ensures r.Ok? <==> tx.sender == s.creator && 1 <= |name| <= 32 && 1 <= |symbol| <= 8 && !Bootstrapped(s)
    ensures r.Ok? ==> r.value.owner == tx.sender
    ensures r.Ok? ==> r.value.control.controller == Some(tx.sender)
    ensures r.Ok? ==> r.value.control.controllable == Some(true)
    ensures r.Ok? ==> r.value.control.requireJustification == Some(true)
    ensures r.Ok? ==> r.value.control.minActionInterval == Some(0)
    ensures r.Ok? ==> BalanceOf(r.value.balances, tx.sender) == supply && r.value.totalSupply == Some(supply)
  {
    Bootstrap1400(s, tx, name, symbol, decimals, supply, tx.sender, tx.sender, true, true, 0)
  }

  /** Bootstrapping a ledger in which nobody holds anything establishes
      conservation: the total supply equals the sum of all balances. */
  lemma BootstrapEstablishesSupplyInvariant(
    s: Token, tx: Txn, name: Bytes, symbol: Bytes, decimals: U8, supply: U256,
    owner: Address, controller: Address, controllable: bool, requireJustification: bool,
    minInterval: U64)
    requires SupplyInvariant(s)
    requires Bootstrap1400(s, tx, name, symbol, decimals, supply, owner, controller,
                           controllable, requireJustification, minInterval).Ok?
    ensures SupplyInvariant(Bootstrap1400(s, tx, name, symbol, decimals, supply, owner, controller,
                                          controllable, requireJustification, minInterval).value)
  {
    ZeroTotalMeansEmpty(s.balances, tx.sender);
    TotalUpdate(s.balances, tx.sender, supply);
  }

  /** Bootstrap runs at most once: after it succeeds, every further attempt fails. */
  lemma BootstrapOnce(
    s: Token, tx: Txn, name: Bytes, symbol: Bytes, decimals: U8, supply: U256,
    owner: Address, controller: Address, controllable: bool, requireJustification: bool,
    minInterval: U64,
    tx2: Txn, name2: Bytes, symbol2: Bytes, decimals2: U8, supply2: U256,
    owner2: Address, controller2: Address, controllable2: bool, requireJustification2: bool,
    minInterval2: U64)
    requires Bootstrap1400(s, tx, name, symbol, decimals, supply, owner, controller,
                           controllable, requireJustification, minInterval).Ok?
    ensures
      var s' := Bootstrap1400(s, tx, name, symbol, decimals, supply, owner, controller,
                              controllable, requireJustification, minInterval).value;
      Bootstrap1400(s', tx2, name2, symbol2, decimals2, supply2, owner2, controller2,
                    controllable2, requireJustification2, minInterval2).Err?
  {
  }

  /** A deployer bootstrapping a fresh application with 1,000,000 units holds
      all of them, and conservation holds from the start. */
  lemma BootstrapScenario(creator: Address)
    ensures
      var r := Bootstrap(Fresh(creator), Txn(creator, 1), [0x54], [0x54], 6, 1_000_000);
      && r.Ok?
      && BalanceOf(r.value.balances, creator) == 1_000_000
      && r.value.totalSupply == Some(1_000_000)
      && SupplyInvariant(r.value)
  {
    var s := Fresh(creator);
    BootstrapEstablishesSupplyInvariant(s, Txn(creator, 1), [0x54], [0x54], 6, 1_000_000,
                                        creator, creator, true, true, 0);
  }
}
