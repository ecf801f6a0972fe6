/** The controller override (`Arc1644`): an owner-appointed controller that can
    force transfers and redemptions, subject to a one-way disable switch, an
    optional justification requirement and a minimum number of rounds between
    actions. */
module Controller {
  import opened Base
  import opened Ledger
  import opened TokenState
  import Compliance

  /** Reason code a successful controller action returns. */
  const CODE_SUCCESS: U64 := 0x51

  /** The result of a controller action: the committed state and its code. */
  datatype Receipt = Receipt(state: Token, code: U64)

  /* ------------------------------- the guards ------------------------------- */

  /** The rate limiter is active: an interval is configured and it is positive. */
  predicate LimiterActive(c: Control) {
    c.minActionInterval.Some? && c.minActionInterval.value > 0
  }

  /** `_onlyController()`: a controller must be set, the caller must be it, and
      control must be enabled, checked in that order. */
  function OnlyController(c: Control, sender: Address): (r: Check)
    ensures r.Pass? <==> c.controller == Some(sender) && c.controllable == Some(true)
    ensures r == Fail(NoController) <==> c.controller.None?
    ensures r == Fail(NotController) <==> c.controller.Some? && c.controller.value != sender
    ensures r == Fail(ControllerDisabled) <==> c.controller == Some(sender) && c.controllable != Some(true)
  {
    if c.controller.None? then Fail(NoController)
    else if sender != c.controller.value then Fail(NotController)
    else if !(c.controllable.Some? && c.controllable.value == true) then Fail(ControllerDisabled)
    else Pass
  }

  /** `_checkJustification(operator_data)`: when justification is required, the
      operator data must be non-empty. */
  function CheckJustification(c: Control, operatorData: Bytes): (r: Check)
    ensures r.Pass? <==> c.requireJustification != Some(true) || |operatorData| > 0
    ensures r.Fail? ==> r.error == JustificationRequired
  {
    if c.requireJustification.Some? && c.requireJustification.value == true then
      if |operatorData| > 0 then Pass else Fail(JustificationRequired)
    else Pass
  }

  /** `_rateLimit()` at round `round`. With a positive interval and a recorded
      last round, the action needs `round >= last + interval`; the uint64 sum
      itself panics when it does not fit. An action that passes an active limiter
      records `round` as the last action round. */
  function RateLimit(c: Control, round: U64): (r: Result<Control>)
    ensures r.Ok? <==>
      !LimiterActive(c) || c.lastActionRound.None?
      || round >= c.lastActionRound.value + c.minActionInterval.value
    ensures r.Err? ==> r.error == RateLimited || r.error == Overflow
    ensures r.Err? && c.lastActionRound.value + c.minActionInterval.value <= MAX_U64 ==> r.error == RateLimited
    ensures r.Ok? && LimiterActive(c) ==> r.value.lastActionRound == Some(round)
    ensures r.Ok? && !LimiterActive(c) ==> r.value.lastActionRound == c.lastActionRound
    ensures r.Ok? ==> r.value == c.(lastActionRound := r.value.lastActionRound)
  {
    if c.minActionInterval.Some? && c.minActionInterval.value > 0 then
      if c.lastActionRound.Some? && c.lastActionRound.value + c.minActionInterval.value > MAX_U64 then
        Err(Overflow)
      else if c.lastActionRound.Some? && round < c.lastActionRound.value + c.minActionInterval.value then
        Err(RateLimited)
      else
        Ok(c.(lastActionRound := Some(round)))
    else
      Ok(c)
  }

  /** The three guards every controller action runs first, in source order. */
  function Authorize(c: Control, tx: Txn, operatorData: Bytes): (r: Result<Control>)
    ensures r.Ok? <==>
      && OnlyController(c, tx.sender).Pass?
      && CheckJustification(c, operatorData).Pass?
      && RateLimit(c, tx.round).Ok?
    ensures r.Ok? ==> r == RateLimit(c, tx.round)
    ensures r.Err? && OnlyController(c, tx.sender).Fail? ==> r.error == OnlyController(c, tx.sender).error
  {
    match OnlyController(c, tx.sender)
    case Fail(e) => Err(e)
    case Pass =>
      match CheckJustification(c, operatorData)
      case Fail(e) => Err(e)
      case Pass => RateLimit(c, tx.round)
  }

  /* --------------------------- owner-only setters --------------------------- */

  /** `arc1644_set_controller(new_controller)`: replaces the controller and enables
      control only if the switch has never been set. */
  function SetController(s: Token, tx: Txn, newController: Address): (r: Result<Token>)
    ensures r.Ok? <==> IsOwner(s, tx.sender)
    ensures r.Err? ==> r.error == OnlyOwner
    ensures r.Ok? ==> r.value.control.controller == Some(newController)
    ensures r.Ok? && s.control.controllable.None? ==> r.value.control.controllable == Some(true)
    ensures r.Ok? && s.control.controllable.Some? ==> r.value.control.controllable == s.control.controllable
    ensures r.Ok? ==>
      r.value == s.(control := s.control.(controller := r.value.control.controller,
                                          controllable := r.value.control.controllable))
  {
    match Compliance.OnlyOwner(s, tx)
    case Fail(e) => Err(e)
    case Pass =>
      var c := s.control.(controller := Some(newController));
      var c := if c.controllable.None? then c.(controllable := Some(true)) else c;
      Ok(s.(control := c))
  }

  /** `arc1644_set_controllable(flag)`: disabling always takes effect; enabling
      takes effect only when the switch is unset or already on, and is otherwise
      silently ignored. */
  function SetControllable(s: Token, tx: Txn, flag: bool): (r: Result<Token>)
    ensures r.Ok? <==> IsOwner(s, tx.sender)
    ensures r.Err? ==> r.error == OnlyOwner
    ensures r.Ok? && !flag ==> r.value.control.controllable == Some(false)
    ensures r.Ok? && flag && s.control.controllable != Some(false) ==> r.value.control.controllable == Some(true)
    ensures r.Ok? && s.control.controllable == Some(false) ==> r.value.control.controllable == Some(false)
    ensures r.Ok? ==> r.value == s.(control := s.control.(controllable := r.value.control.controllable))
  {
    match Compliance.OnlyOwner(s, tx)
    case Fail(e) => Err(e)
    case Pass =>
      if !flag then
        Ok(s.(control := s.control.(controllable := Some(flag))))
      else if s.control.controllable.None? || s.control.controllable.value == true then
        Ok(s.(control := s.control.(controllable := Some(flag))))
      else
        Ok(s)
  }

  /** `arc1644_set_require_justification(flag)`. */
  function SetRequireJustification(s: Token, tx: Txn, flag: bool): (r: Result<Token>)
    ensures r.Ok? <==> IsOwner(s, tx.sender)
    ensures r.Err? ==> r.error == OnlyOwner
    ensures r.Ok? ==> forall d: Bytes :: CheckJustification(r.value.control, d).Pass? <==> !flag || |d| > 0
    ensures r.Ok? ==> r.value == s.(control := s.control.(requireJustification := r.value.control.requireJustification))
  {
    match Compliance.OnlyOwner(s, tx)
    case Fail(e) => Err(e)
    case Pass => Ok(s.(control := s.control.(requireJustification := Some(flag))))
  }

  /** `arc1644_set_min_action_interval(interval)`. */
  function SetMinActionInterval(s: Token, tx: Txn, interval: U64): (r: Result<Token>)
    ensures r.Ok? <==> IsOwner(s, tx.sender)
    ensures r.Err? ==> r.error == OnlyOwner
    ensures r.Ok? ==> (LimiterActive(r.value.control) <==> interval > 0)
    ensures r.Ok? ==> r.value.control.minActionInterval == Some(interval)
    ensures r.Ok? ==> r.value == s.(control := s.control.(minActionInterval := r.value.control.minActionInterval))
  {
    match Compliance.OnlyOwner(s, tx)
    case Fail(e) => Err(e)
    case Pass => Ok(s.(control := s.control.(minActionInterval := Some(interval))))
  }

  /** `arc1644_is_controllable()`: 1 when control is enabled and a controller is set. */
  function IsControllable(s: Token): (r: U64)
    ensures r == 0 || r == 1
    ensures r == 1 <==> s.control.controllable == Some(true) && s.control.controller.Some?
  {
    if s.control.controllable.Some? && s.control.controllable.value == true && s.control.controller.Some? then 1
    else 0
  }

  /** `is_controllable` reports 1 exactly when some caller would pass the
      controller check. */
  lemma IsControllableIffSomeoneMayAct(s: Token)
    ensures IsControllable(s) == 1 <==> exists a :: OnlyController(s.control, a).Pass?
  {
    if IsControllable(s) == 1 {
      assert OnlyController(s.control, s.control.controller.value).Pass?;
    }
  }

  /* ---------------------------- forced actions ---------------------------- */

  /** `arc1644_controller_transfer(from, to, amount, data, operator_data)`: after
      the guards, moves `amount` from `from` to `to` directly, bypassing every
      holder and compliance check. The credit panics when it does not fit in a
      uint256. */
  function ControllerTransfer(s: Token, tx: Txn, from: Address, to: Address, amount: U256, operatorData: Bytes)
    : (r: Result<Receipt>)
    ensures r.Ok? <==>
      && Authorize(s.control, tx, operatorData).Ok?
      && from != to
      && BalanceOf(s.balances, from) >= amount
      && BalanceOf(s.balances, to) + amount <= MAX_U256
    ensures Authorize(s.control, tx, operatorData).Err? ==> r == Err(Authorize(s.control, tx, operatorData).error)
    ensures Authorize(s.control, tx, operatorData).Ok? && from == to ==> r == Err(SameAddr)
    ensures r.Ok? ==> r.value.code == CODE_SUCCESS
    ensures r.Ok? ==> BalanceOf(r.value.state.balances, from) == BalanceOf(s.balances, from) - amount
    ensures r.Ok? ==> BalanceOf(r.value.state.balances, to) == BalanceOf(s.balances, to) + amount
    ensures r.Ok? ==> forall a :: a != from && a != to ==> BalanceOf(r.value.state.balances, a) == BalanceOf(s.balances, a)
    ensures r.Ok? ==> r.value.state.control == Authorize(s.control, tx, operatorData).value
    ensures r.Ok? ==>
      r.value.state == s.(balances := r.value.state.balances, control := r.value.state.control)
  {
    var c :- Authorize(s.control, tx, operatorData);
    if from == to then Err(SameAddr)
    else
      var fromBal := BalanceOf(s.balances, from);
      if fromBal < amount then Err(Insufficient)
      else
        var b := s.balances[from := fromBal - amount];
        var toBal := BalanceOf(b, to);
        if toBal + amount > MAX_U256 then Err(Overflow)
        else Ok(Receipt(s.(balances := b[to := toBal + amount], control := c), CODE_SUCCESS))
  }

  /** `arc1644_controller_redeem(from, amount, operator_data)`: after the guards,
      burns `amount` from `from` and from the total supply. Unlike holder
      redemption it accepts a zero amount. */
  function ControllerRedeem(s: Token, tx: Txn, from: Address, amount: U256, operatorData: Bytes)
    : (r: Result<Receipt>)
    ensures r.Ok? <==>
      && Authorize(s.control, tx, operatorData).Ok?
      && BalanceOf(s.balances, from) >= amount
      && s.totalSupply.Some? && s.totalSupply.value >= amount
    ensures Authorize(s.control, tx, operatorData).Err? ==> r == Err(Authorize(s.control, tx, operatorData).error)
    ensures Authorize(s.control, tx, operatorData).Ok? && BalanceOf(s.balances, from) < amount ==> r == Err(Insufficient)
    ensures r.Ok? ==> r.value.code == CODE_SUCCESS
    ensures r.Ok? ==> r.value.state.control == Authorize(s.control, tx, operatorData).value
    ensures r.Ok? ==> Compliance.BurntFrom(s.(control := r.value.state.control), r.value.state, from, amount)
  {
    var c :- Authorize(s.control, tx, operatorData);
    var fromBal := BalanceOf(s.balances, from);
    if fromBal < amount then Err(Insufficient)
    else if s.totalSupply.None? then Err(NoValue)
    else if s.totalSupply.value < amount then Err(Underflow)
    else
      Ok(Receipt(
        s.(balances := s.balances[from := fromBal - amount],
           totalSupply := Some(s.totalSupply.value - amount),
           control := c),
        CODE_SUCCESS))
  }

  /* ------------------------------ properties ------------------------------ */

  /** A forced transfer conserves value: the total supply is untouched and the
      sum of balances is unchanged. Under conservation its credit never
      overflows, so only the guards, `from == to` or an uncovered balance can
      make it fail. */
  lemma ControllerTransferConserves(s: Token, tx: Txn, from: Address, to: Address, amount: U256, operatorData: Bytes)
    requires SupplyInvariant(s)
    ensures
      var r := ControllerTransfer(s, tx, from, to, amount, operatorData);
      && (r.Ok? <==> Authorize(s.control, tx, operatorData).Ok? && from != to && BalanceOf(s.balances, from) >= amount)
      && (r.Ok? ==> Total(r.value.state.balances) == Total(s.balances))
      && (r.Ok? ==> r.value.state.totalSupply == s.totalSupply && SupplyInvariant(r.value.state))
  {
    if from != to {
      TwoBalancesAtMostTotal(s.balances, from, to);
      if BalanceOf(s.balances, from) >= amount {
        TotalMove(s.balances, from, to, amount);
        var b := s.balances[from := BalanceOf(s.balances, from) - amount];
        assert BalanceOf(b, to) == BalanceOf(s.balances, to);
        match s.totalSupply {
          case None =>
            ZeroTotalMeansEmpty(s.balances, from);
            ZeroTotalMeansEmpty(s.balances, to);
          case Some(t) =>
        }
      }
    }
  }

  /** A forced redemption lowers the sum of balances and the total supply by
      exactly the redeemed amount, and keeps conservation. */
  lemma ControllerRedeemConserves(s: Token, tx: Txn, from: Address, amount: U256, operatorData: Bytes)
    requires SupplyInvariant(s)
    ensures
      var r := ControllerRedeem(s, tx, from, amount, operatorData);
      && (Bootstrapped(s) ==> (r.Ok? <==> Authorize(s.control, tx, operatorData).Ok? && BalanceOf(s.balances, from) >= amount))
      && (r.Ok? ==> Total(r.value.state.balances) + amount == Total(s.balances))
      && (r.Ok? ==> SupplyInvariant(r.value.state))
  {
    BalanceAtMostTotal(s.balances, from);
    var r := ControllerRedeem(s, tx, from, amount, operatorData);
    if r.Ok? {
      TotalUpdate(s.balances, from, BalanceOf(s.balances, from) - amount);
    }
  }

  /** Once control is switched off it stays off: no controller operation turns
      it back on. */
  lemma DisabledIsSticky(s: Token, tx: Txn, a: Address, flag: bool, interval: U64)
    requires s.control.controllable == Some(false)
    ensures
      var r := SetController(s, tx, a);
      r.Ok? ==> r.value.control.controllable == Some(false)
    ensures
      var r := SetControllable(s, tx, flag);
      r.Ok? ==> r.value.control.controllable == Some(false)
    ensures
      var r := SetRequireJustification(s, tx, flag);
      r.Ok? ==> r.value.control.controllable == Some(false)
    ensures
      var r := SetMinActionInterval(s, tx, interval);
      r.Ok? ==> r.value.control.controllable == Some(false)
  {
  }

  /** Two actions that both pass an active limiter are at least the interval
      apart: after an action at round `r1`, any action before `r1 + interval`
      is refused. */
  lemma RateLimitSpacesActions(c: Control, r1: U64, r2: U64)
    requires LimiterActive(c)
    requires RateLimit(c, r1).Ok?
    requires r2 < r1 + c.minActionInterval.value
    ensures RateLimit(RateLimit(c, r1).value, r2).Err?
  {
  }

  /** With a zero or unset interval the limiter never refuses and never records. */
  lemma InactiveLimiterIsTransparent(c: Control, round: U64)
    requires !LimiterActive(c)
    ensures RateLimit(c, round) == Ok(c)
  {
  }
}
