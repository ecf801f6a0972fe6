/** The compliance gate (`Arc1594`): owner-only administration of the halt
    switch, the per-account KYC flags and lockup rounds; redemption, which burns
    from one balance and the total supply together; and the read-only transfer
    validation that reports the first failing check as a status code. */
module Compliance {
  import opened Base
  import opened Ledger
  import opened TokenState

  /* ------------------------------ status codes ------------------------------ */

  const CODE_OK: U64 := 0
  const CODE_SENDER_NOT_ELIGIBLE: U64 := 10
  const CODE_RECEIVER_NOT_ELIGIBLE: U64 := 11
  const CODE_INSUFFICIENT_BALANCE: U64 := 13
  const CODE_HALTED: U64 := 14
  const CODE_SENDER_LOCKED: U64 := 15
  const CODE_INVALID_AMOUNT: U64 := 40

  /* --------------------------- what the flags mean --------------------------- */

  /** Transfers are halted only when the halt slot holds exactly 1. */
  predicate Halted(s: Token) {
    s.gate.halt == Some(1)
  }

  /** An account is eligible when it has a KYC entry with a non-zero value. */
  predicate Eligible(s: Token, a: Address) {
    a in s.gate.kyc && s.gate.kyc[a] != 0
  }

  /** An account with a lockup entry stays locked up to and including that round. */
  predicate LockedAt(s: Token, a: Address, round: U64) {
    a in s.gate.lockupUntil && round <= s.gate.lockupUntil[a]
  }

  /** Everything a transfer of `amount` from `from` to `to` must satisfy. */
  predicate TransferAllowed(s: Token, round: U64, from: Address, to: Address, amount: U256) {
    && !Halted(s)
    && Eligible(s, from)
    && Eligible(s, to)
    && amount > 0
    && BalanceOf(s.balances, from) >= amount
    && !LockedAt(s, from, round)
  }

  /* --------------------------- owner-only setters --------------------------- */

  /** `_onlyOwner()`. */
  function OnlyOwner(s: Token, tx: Txn): (r: Check)
    ensures r.Pass? <==> IsOwner(s, tx.sender)
    ensures r.Fail? ==> r.error == Error.OnlyOwner
  {
    if tx.sender == s.owner then Pass else Fail(Error.OnlyOwner)
  }

  /** `arc1594_set_halt(flag)`. */
  function SetHalt(s: Token, tx: Txn, flag: U64): (r: Result<Token>)
    ensures r.Ok? <==> IsOwner(s, tx.sender)
    ensures r.Err? ==> r.error == Error.OnlyOwner
    ensures r.Ok? ==> r.value.gate.halt == Some(flag)
    ensures r.Ok? ==> (Halted(r.value) <==> flag == 1)
    ensures r.Ok? ==> r.value == s.(gate := s.gate.(halt := r.value.gate.halt))
  {
    match OnlyOwner(s, tx)
    case Fail(e) => Err(e)
    case Pass => Ok(s.(gate := s.gate.(halt := Some(flag))))
  }

  /** `arc1594_set_kyc(account, flag)`. */
  function SetKyc(s: Token, tx: Txn, account: Address, flag: U64): (r: Result<Token>)
    ensures r.Ok? <==> IsOwner(s, tx.sender)
    ensures r.Err? ==> r.error == Error.OnlyOwner
    ensures r.Ok? ==> (Eligible(r.value, account) <==> flag != 0)
    ensures r.Ok? ==> forall a :: a != account ==> (Eligible(r.value, a) <==> Eligible(s, a))
    ensures r.Ok? ==> r.value == s.(gate := s.gate.(kyc := r.value.gate.kyc))
  {
    match OnlyOwner(s, tx)
    case Fail(e) => Err(e)
    case Pass => Ok(s.(gate := s.gate.(kyc := s.gate.kyc[account := flag])))
  }

  /** `arc1594_set_lockup(account, round)`. */
  function SetLockup(s: Token, tx: Txn, account: Address, until: U64): (r: Result<Token>)
    ensures r.Ok? <==> IsOwner(s, tx.sender)
    ensures r.Err? ==> r.error == Error.OnlyOwner
    ensures r.Ok? ==> forall round: U64 :: LockedAt(r.value, account, round) <==> round <= until
    ensures r.Ok? ==> forall a, round: U64 :: a != account ==> (LockedAt(r.value, a, round) <==> LockedAt(s, a, round))
    ensures r.Ok? ==> r.value == s.(gate := s.gate.(lockupUntil := r.value.gate.lockupUntil))
  {
    match OnlyOwner(s, tx)
    case Fail(e) => Err(e)
    case Pass => Ok(s.(gate := s.gate.(lockupUntil := s.gate.lockupUntil[account := until])))
  }

  /* ------------------------------- redemption ------------------------------- */

  /** `r` is `s` with `amount` burnt from `from`'s balance: that balance and the
      total supply drop by `amount`, and nothing else changes. */
  ghost predicate BurntFrom(s: Token, r: Token, from: Address, amount: nat) {
    && BalanceOf(r.balances, from) + amount == BalanceOf(s.balances, from)
    && s.totalSupply.Some?
    && r.totalSupply.Some? && r.totalSupply.value + amount == s.totalSupply.value
    && (forall a :: a != from ==> BalanceOf(r.balances, a) == BalanceOf(s.balances, a))
    && r.balances == s.balances[from := BalanceOf(r.balances, from)]
    && r == s.(balances := r.balances, totalSupply := r.totalSupply)
  }

  /** The burn both redemption entry points perform once the caller is
      authorised. Reading an unset total supply, or subtracting past zero, is an
      AVM panic. */
  function Burn(s: Token, from: Address, amount: U256): Result<Token> {
    if amount == 0 then Err(InvalidAmount)
    else if !(from in s.balances && s.balances[from] >= amount) then Err(InsufficientBalance)
    else if s.totalSupply.None? then Err(NoValue)
    else if s.totalSupply.value < amount then Err(Underflow)
    else
      Ok(s.(balances := s.balances[from := s.balances[from] - amount],
            totalSupply := Some(s.totalSupply.value - amount)))
  }

  /** `arc1594_redeem(amount, data)`: the caller burns from its own balance. */
  function Redeem(s: Token, tx: Txn, amount: U256): (r: Result<Token>)
    ensures amount == 0 ==> r == Err(InvalidAmount)
    ensures amount > 0 && BalanceOf(s.balances, tx.sender) < amount ==> r == Err(InsufficientBalance)
    ensures r.Ok? <==>
      amount > 0 && BalanceOf(s.balances, tx.sender) >= amount
      && s.totalSupply.Some? && s.totalSupply.value >= amount
    ensures r.Ok? ==> BurntFrom(s, r.value, tx.sender, amount)
  {
    Burn(s, tx.sender, amount)
  }

  /** `arc1594_redeemFrom(from, amount, data)`: the holder itself or the owner
      burns from `from`'s balance. */
  function RedeemFrom(s: Token, tx: Txn, from: Address, amount: U256): (r: Result<Token>)
    ensures !(tx.sender == from || IsOwner(s, tx.sender)) ==> r == Err(NotAuth)
    ensures (tx.sender == from || IsOwner(s, tx.sender)) && amount == 0 ==> r == Err(InvalidAmount)
    ensures
      ((tx.sender == from || IsOwner(s, tx.sender)) && amount > 0 && BalanceOf(s.balances, from) < amount)
      ==> r == Err(InsufficientBalance)
    ensures r.Ok? <==>
      (tx.sender == from || IsOwner(s, tx.sender))
      && amount > 0 && BalanceOf(s.balances, from) >= amount
      && s.totalSupply.Some? && s.totalSupply.value >= amount
    ensures r.Ok? ==> BurntFrom(s, r.value, from, amount)
  {
    if !(tx.sender == from || IsOwner(s, tx.sender)) then Err(NotAuth)
    else Burn(s, from, amount)
  }

  /** A burn keeps the total supply equal to the sum of balances. */
  lemma BurnKeepsSupplyInvariant(s: Token, r: Token, from: Address, amount: nat)
    requires SupplyInvariant(s)
    requires BurntFrom(s, r, from, amount)
    ensures SupplyInvariant(r)
  {
    TotalUpdate(s.balances, from, BalanceOf(r.balances, from));
  }

  /** With conservation in force, redemption fails only for a zero amount or a
      balance that does not cover it: the total supply can never underflow, and
      before bootstrap nobody holds anything to redeem. */
  lemma RedeemFailsOnlyOnAmountOrBalance(s: Token, tx: Txn, amount: U256)
    requires SupplyInvariant(s)
    ensures Redeem(s, tx, amount).Ok? <==> amount > 0 && BalanceOf(s.balances, tx.sender) >= amount
  {
    BalanceAtMostTotal(s.balances, tx.sender);
  }

  /** With conservation in force, redemption on behalf of `from` fails only for
      an unauthorised caller, a zero amount or a balance of `from` that does not
      cover it: the total supply can never underflow. */
  lemma RedeemFromFailsOnlyOnAuthAmountOrBalance(s: Token, tx: Txn, from: Address, amount: U256)
    requires SupplyInvariant(s)
    ensures RedeemFrom(s, tx, from, amount).Ok? <==>
      (tx.sender == from || IsOwner(s, tx.sender)) && amount > 0 && BalanceOf(s.balances, from) >= amount
  {
    BalanceAtMostTotal(s.balances, from);
  }

  /* ------------------------------- validation ------------------------------- */

  /** `arc1594_validate_transfer(from, to, amount, data)` at round `round`: starts
      from the success code and lets each check overwrite it only while it is
      still zero. Being a function, it cannot change the state it reads. */
  function ValidateTransfer(s: Token, round: U64, from: Address, to: Address, amount: U256): (code: U64)
    ensures code == CODE_HALTED <==> Halted(s)
    ensures code == CODE_SENDER_NOT_ELIGIBLE <==> !Halted(s) && !Eligible(s, from)
    ensures code == CODE_RECEIVER_NOT_ELIGIBLE <==>
      !Halted(s) && Eligible(s, from) && !Eligible(s, to)
    ensures code == CODE_INVALID_AMOUNT <==>
      !Halted(s) && Eligible(s, from) && Eligible(s, to) && amount == 0
    ensures code == CODE_INSUFFICIENT_BALANCE <==>
      !Halted(s) && Eligible(s, from) && Eligible(s, to) && amount > 0
      && BalanceOf(s.balances, from) < amount
    ensures code == CODE_SENDER_LOCKED <==>
      !Halted(s) && Eligible(s, from) && Eligible(s, to) && amount > 0
      && BalanceOf(s.balances, from) >= amount && LockedAt(s, from, round)
    ensures code == CODE_OK <==> TransferAllowed(s, round, from, to, amount)
  {
    var code := 0;
    var code := if s.gate.halt.Some? && s.gate.halt.value == 1 then 14 else code;
    var code :=
      if code == 0 && (from !in s.gate.kyc || s.gate.kyc[from] == 0) then 10 else code;
    var code :=
      if code == 0 && (to !in s.gate.kyc || s.gate.kyc[to] == 0) then 11 else code;
    var code := if code == 0 && amount == 0 then 40 else code;
    var code :=
      if code == 0 && (from !in s.balances || s.balances[from] < amount) then 13 else code;
    var code :=
      if code == 0 && from in s.gate.lockupUntil && round <= s.gate.lockupUntil[from] then 15 else code;
    code
  }

  /** One check of the validation: the code it reports when its condition holds. */
  datatype Rule = Rule(fails: bool, code: U64)

  /** The checks of a transfer validation, in the order they take priority. */
  function Rules(s: Token, round: U64, from: Address, to: Address, amount: U256): seq<Rule> {
    [ Rule(Halted(s), CODE_HALTED),
      Rule(!Eligible(s, from), CODE_SENDER_NOT_ELIGIBLE),
      Rule(!Eligible(s, to), CODE_RECEIVER_NOT_ELIGIBLE),
      Rule(amount == 0, CODE_INVALID_AMOUNT),
      Rule(BalanceOf(s.balances, from) < amount, CODE_INSUFFICIENT_BALANCE),
      Rule(LockedAt(s, from, round), CODE_SENDER_LOCKED) ]
  }

  /** The code of the first rule that fails, or success when none does. */
  function FirstFailure(rules: seq<Rule>): U64 {
    if |rules| == 0 then CODE_OK
    else if rules[0].fails then rules[0].code
    else FirstFailure(rules[1..])
  }

  /** Validation reports exactly the first failing check in the fixed priority
      order halt, sender KYC, receiver KYC, amount, balance, lockup. */
  lemma ValidateIsFirstFailure(s: Token, round: U64, from: Address, to: Address, amount: U256)
    ensures ValidateTransfer(s, round, from, to, amount) == FirstFailure(Rules(s, round, from, to, amount))
  {
    var rules := Rules(s, round, from, to, amount);
    var r1 := rules[1..];
    var r2 := r1[1..];
    var r3 := r2[1..];
    var r4 := r3[1..];
    var r5 := r4[1..];
    assert FirstFailure(r5[1..]) == CODE_OK;
    assert FirstFailure(r5) == if r5[0].fails then r5[0].code else CODE_OK;
    assert FirstFailure(r4) == if r4[0].fails then r4[0].code else FirstFailure(r5);
    assert FirstFailure(r3) == if r3[0].fails then r3[0].code else FirstFailure(r4);
    assert FirstFailure(r2) == if r2[0].fails then r2[0].code else FirstFailure(r3);
    assert FirstFailure(r1) == if r1[0].fails then r1[0].code else FirstFailure(r2);
  }

  /** Once the owner sets the halt flag to 1, every transfer validates as halted;
      any other value lifts the halt. */
  lemma SetHaltDecidesValidation(s: Token, tx: Txn, flag: U64, round: U64, from: Address, to: Address, amount: U256)
    requires SetHalt(s, tx, flag).Ok?
    ensures ValidateTransfer(SetHalt(s, tx, flag).value, round, from, to, amount) == CODE_HALTED <==> flag == 1
  {
  }

  /** An account whose KYC flag the owner sets to 0 can never send successfully. */
  lemma RevokedKycBlocksSender(s: Token, tx: Txn, account: Address, round: U64, to: Address, amount: U256)
    requires SetKyc(s, tx, account, 0).Ok?
    ensures ValidateTransfer(SetKyc(s, tx, account, 0).value, round, account, to, amount) != CODE_OK
  {
  }

  /** An account locked until round `until` cannot send successfully at any round
      up to and including `until`. */
  lemma LockupBlocksSender(s: Token, tx: Txn, account: Address, until: U64, round: U64, to: Address, amount: U256)
    requires SetLockup(s, tx, account, until).Ok?
    requires round <= until
    ensures ValidateTransfer(SetLockup(s, tx, account, until).value, round, account, to, amount) != CODE_OK
  {
  }
}
