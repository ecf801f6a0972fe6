/** The deployed token as a whole: every state-changing call of the compliance,
    controller and bootstrap layers behind one dispatcher, and the properties
    that hold across any sequence of calls. A failed call aborts and leaves the
    state exactly as it was. */
module Contract {
  import opened Base
  import opened Ledger
  import opened TokenState
  import Compliance
  import Controller
  import Deployment

  /** A state-changing application call and its arguments. Arguments that only
      reach emitted events (`data`) are not carried. */
  datatype Call =
    | SetHalt(flag: U64)
    | SetKyc(account: Address, flag: U64)
    | SetLockup(account: Address, until: U64)
    | Redeem(amount: U256)
    | RedeemFrom(from: Address, amount: U256)
    | SetController(controller: Address)
    | SetControllable(enabled: bool)
    | SetRequireJustification(required: bool)
    | SetMinActionInterval(interval: U64)
    | ControllerTransfer(from: Address, to: Address, amount: U256, operatorData: Bytes)
    | ControllerRedeem(from: Address, amount: U256, operatorData: Bytes)
    | Bootstrap(name: Bytes, symbol: Bytes, decimals: U8, supply: U256)
    | Bootstrap1400(name: Bytes, symbol: Bytes, decimals: U8, supply: U256, owner: Address,
                    controller: Address, controllable: bool, requireJustification: bool, minInterval: U64)

  /** Executes one call on behalf of `tx.sender` at round `tx.round`. */
  function Step(s: Token, tx: Txn, call: Call): Result<Token> {
    match call
    case SetHalt(flag) => Compliance.SetHalt(s, tx, flag)
    case SetKyc(account, flag) => Compliance.SetKyc(s, tx, account, flag)
    case SetLockup(account, until) => Compliance.SetLockup(s, tx, account, until)
    case Redeem(amount) => Compliance.Redeem(s, tx, amount)
    case RedeemFrom(from, amount) => Compliance.RedeemFrom(s, tx, from, amount)
    case SetController(c) => Controller.SetController(s, tx, c)
    case SetControllable(enabled) => Controller.SetControllable(s, tx, enabled)
    case SetRequireJustification(required) => Controller.SetRequireJustification(s, tx, required)
    case SetMinActionInterval(interval) => Controller.SetMinActionInterval(s, tx, interval)
    case ControllerTransfer(from, to, amount, operatorData) =>
      var r :- Controller.ControllerTransfer(s, tx, from, to, amount, operatorData);
      Ok(r.state)
    case ControllerRedeem(from, amount, operatorData) =>
      var r :- Controller.ControllerRedeem(s, tx, from, amount, operatorData);
      Ok(r.state)
    case Bootstrap(name, symbol, decimals, supply) =>
      Deployment.Bootstrap(s, tx, name, symbol, decimals, supply)
    case Bootstrap1400(name, symbol, decimals, supply, owner, c, controllable, requireJustification, minInterval) =>
      Deployment.Bootstrap1400(s, tx, name, symbol, decimals, supply, owner, c,
                               controllable, requireJustification, minInterval)
  }

  /** The state after a sequence of calls; each failed call is skipped. */
  function Run(s: Token, calls: seq<(Txn, Call)>): Token
    decreases |calls|
  {
    if |calls| == 0 then s
    else
      var r := Step(s, calls[0].0, calls[0].1);
      Run(if r.Ok? then r.value else s, calls[1..])
  }

  /** Every call keeps the total supply equal to the sum of all balances. */
  lemma StepKeepsSupplyInvariant(s: Token, tx: Txn, call: Call)
    requires SupplyInvariant(s)
    ensures Step(s, tx, call).Ok? ==> SupplyInvariant(Step(s, tx, call).value)
  {
    var r := Step(s, tx, call);
    if r.Ok? {
      match call
      case SetHalt(_) =>
      case SetKyc(_, _) =>
      case SetLockup(_, _) =>
      case Redeem(amount) =>
        Compliance.BurnKeepsSupplyInvariant(s, r.value, tx.sender, amount);
      case RedeemFrom(from, amount) =>
        Compliance.BurnKeepsSupplyInvariant(s, r.value, from, amount);
      case SetController(_) =>
      case SetControllable(_) =>
      case SetRequireJustification(_) =>
      case SetMinActionInterval(_) =>
      case ControllerTransfer(from, to, amount, operatorData) =>
        Controller.ControllerTransferConserves(s, tx, from, to, amount, operatorData);
      case ControllerRedeem(from, amount, operatorData) =>
        Controller.ControllerRedeemConserves(s, tx, from, amount, operatorData);
      case Bootstrap(name, symbol, decimals, supply) =>
        Deployment.BootstrapEstablishesSupplyInvariant(s, tx, name, symbol, decimals, supply,
                                                       tx.sender, tx.sender, true, true, 0);
      case Bootstrap1400(name, symbol, decimals, supply, owner, c, controllable, requireJustification, minInterval) =>
        Deployment.BootstrapEstablishesSupplyInvariant(s, tx, name, symbol, decimals, supply, owner, c,
                                                       controllable, requireJustification, minInterval);
    }
  }

  /** Conservation holds after any sequence of calls that starts where it holds,
      in particular from a freshly created application. */
  lemma {:induction false} RunKeepsSupplyInvariant(s: Token, calls: seq<(Txn, Call)>)
    requires SupplyInvariant(s)
    ensures SupplyInvariant(Run(s, calls))
    decreases |calls|
  {
    if |calls| > 0 {
      StepKeepsSupplyInvariant(s, calls[0].0, calls[0].1);
      var r := Step(s, calls[0].0, calls[0].1);
      RunKeepsSupplyInvariant(if r.Ok? then r.value else s, calls[1..]);
    }
  }

  /** Once bootstrapped, the token stays bootstrapped, and a controller switch
      that is off stays off whatever call follows. */
  lemma StepKeepsControlOff(s: Token, tx: Txn, call: Call)
    requires Bootstrapped(s)
    ensures Step(s, tx, call).Ok? ==> Bootstrapped(Step(s, tx, call).value)
    ensures s.control.controllable == Some(false) && Step(s, tx, call).Ok? ==>
      Step(s, tx, call).value.control.controllable == Some(false)
  {
  }

  /** After bootstrap, no sequence of calls turns a disabled controller back on. */
  lemma {:induction false} RunKeepsControlOff(s: Token, calls: seq<(Txn, Call)>)
    requires Bootstrapped(s)
    requires s.control.controllable == Some(false)
    ensures Run(s, calls).control.controllable == Some(false)
    decreases |calls|
  {
    if |calls| > 0 {
      StepKeepsControlOff(s, calls[0].0, calls[0].1);
      var r := Step(s, calls[0].0, calls[0].1);
      RunKeepsControlOff(if r.Ok? then r.value else s, calls[1..]);
    }
  }

  /** Bootstrap overwrites the switch with its argument, so before bootstrap an
      explicit disable is not yet final. The start state, with the deployer as
      owner, stands for an ownership layer (`arc88`, not part of this model)
      that makes the deployer the owner before bootstrap, as the registry's
      tests do when they write documents right after deployment; bootstrap's
      own owner initialisation might then behave differently from the model's.
      Within the model the same sequence is reachable without that assumption:
      the owner of a fresh application is the zero address, and a call with
      the zero address as sender passes the owner check, though on chain no
      key signs for that address (`ZeroOwnerMayDisableBeforeBootstrap`). */
  lemma BootstrapMayReenableControl(creator: Address)
    ensures
      var s := Fresh(creator).(owner := creator);
      var off := Step(s, Txn(creator, 1), SetControllable(false));
      && off.Ok? && off.value.control.controllable == Some(false)
      && var on := Step(off.value, Txn(creator, 2), Bootstrap([0x54], [0x54], 6, 100));
      && on.Ok? && on.value.control.controllable == Some(true)
  {
  }

  /** The deployer bootstraps 1000 units with itself as controller, no
      justification and a 10-round interval. A forced transfer at round 100
      passes; a second one at round 105 is rate limited, one at round 110
      succeeds. */
  lemma RateLimitScenario(creator: Address, other: Address)
    requires creator != other
    ensures
      var boot := Step(Fresh(creator), Txn(creator, 1),
                       Bootstrap1400([0x54], [0x54], 6, 1000, creator, creator, true, false, 10));
      && boot.Ok?
      && var call := ControllerTransfer(creator, other, 1, []);
      && var first := Step(boot.value, Txn(creator, 100), call);
      && first.Ok?
      && Step(first.value, Txn(creator, 105), call) == Err(RateLimited)
      && Step(first.value, Txn(creator, 110), call).Ok?
  {
  }

  /** Before bootstrap the owner is the zero address, so a call sent from it
      disables control, and the deployer's bootstrap then enables it again. */
  lemma ZeroOwnerMayDisableBeforeBootstrap(creator: Address)
    requires creator != ZERO_ADDRESS
    ensures
      var off := Step(Fresh(creator), Txn(ZERO_ADDRESS, 1), SetControllable(false));
      && off.Ok? && off.value.control.controllable == Some(false)
      && var on := Step(off.value, Txn(creator, 2), Bootstrap([0x54], [0x54], 6, 100));
      && on.Ok? && on.value.control.controllable == Some(true)
  {
  }
}
