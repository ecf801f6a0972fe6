# ARC-1400 security token: compliance, controller, registry and bootstrap

This is a Dafny model of the Algorand security-token contract `Arc1400` in
`projects/arc-1400/smart_contracts/security_token`, together with its sibling
contract `Arc1643`, the document registry, which extends `Arc1594` rather than
being part of `Arc1400`. It covers four layers:

- the compliance gate `Arc1594`: halt switch, KYC flags, lockups, redemption and
  transfer validation;
- the controller override `Arc1644`: a one-way enable switch, a justification
  requirement, a round-based rate limiter, and forced transfer and redemption;
- the document registry `Arc1643` (the sibling contract);
- the once-only bootstrap `Arc1400.bootstrap1400`.

The contract's persistent state is one immutable record, `TokenState.Token`. It
holds the ARC-200 balance boxes as a map that reads 0 for a missing key, the
total supply, the owner and creator, the compliance flags and the controller
configuration. A global slot that may be unset is an `Option`. Each ABI method is
a pure function of the state, the caller and the current round (`Txn`). It
returns `Result<...>`: `Err` is an abort that leaves the state unchanged, and
`Ok` carries the committed state. The error constructors mirror the contract's
assert messages. Three more constructors stand for AVM panics: `NoValue` (an
unset slot was read), `Overflow` and `Underflow`.

Integer widths are explicit: `U64`, `U256` and `U8` are bounded subset types.
Three arithmetic steps can fail, and each is an explicit abort:
- the uint256 credit in `controller_transfer`;
- the uint64 sum `last + interval` in the rate limiter;
- the biguint subtraction from the total supply in `redeem`, `redeemFrom` and
  `controller_redeem`.

The lemmas show that, under conservation, the first and third never fail. The
second can fail only where the rate limiter would refuse the call anyway.

Conservation is `TokenState.SupplyInvariant`. Before bootstrap nobody holds
anything; afterwards the total supply equals the ghost sum of all balances
(`Ledger.Total`). Every call preserves it (`Contract.StepKeepsSupplyInvariant`),
and so does every sequence of calls (`Contract.RunKeepsSupplyInvariant`).

Modules: `Base` (widths, addresses, results), `Ledger` (balances and their sum),
`TokenState`, `Compliance`, `Controller`, `Documents`, `Deployment`, `Contract`
(the dispatcher over all state-changing calls, plus whole-history properties).

Behaviours of the source that the model keeps as they are:
- Validation treats a sender as locked while `round <= lockupUntil`, so the
  lockup round itself is still locked.
- Enabling control after an explicit disable is silently ignored, not rejected.
- `controller_redeem` accepts a zero amount, unlike holder redemption.
- Plain `bootstrap` also sets the owner and the controller to the sender.

## Model

| member | source | states |
|---|---|---|
| TokenState.Fresh | projects/arc-1400/smart_contracts/security_token/arc88.algo.ts:5 | a new application is not bootstrapped, and conservation already holds (nobody holds anything) |
| Compliance.OnlyOwner | projects/arc-1400/smart_contracts/security_token/arc1594.algo.ts:38-40 | passes exactly when the caller is the owner; otherwise aborts with only_owner |
| Compliance.SetHalt | projects/arc-1400/smart_contracts/security_token/arc1594.algo.ts:43-47 | owner-only; afterwards transfers count as halted iff the flag is exactly 1; no other field changes |
| Compliance.SetKyc | projects/arc-1400/smart_contracts/security_token/arc1594.algo.ts:49-53 | owner-only; the account becomes eligible iff the flag is non-zero; every other account's eligibility and every other field is unchanged |
| Compliance.SetLockup | projects/arc-1400/smart_contracts/security_token/arc1594.algo.ts:55-59 | owner-only; afterwards the account is locked at exactly the rounds up to and including the given round; other accounts and fields are unchanged |
| Compliance.Redeem | projects/arc-1400/smart_contracts/security_token/arc1594.algo.ts:82-90 | aborts with invalid_amount for 0 and insufficient_balance for an uncovered balance; on success the caller's balance and the total supply both drop by the amount, and nothing else changes |
| Compliance.RedeemFrom | projects/arc-1400/smart_contracts/security_token/arc1594.algo.ts:71-80 | aborts with not_auth unless the caller is `from` or the owner; otherwise the same checks and effect as redeem, applied to `from` |
| Compliance.BurnKeepsSupplyInvariant | projects/arc-1400/smart_contracts/security_token/arc1594.algo.ts:77-78 | lowering one balance and the total supply by the same amount keeps the total supply equal to the sum of balances |
| Compliance.RedeemFailsOnlyOnAmountOrBalance | projects/arc-1400/smart_contracts/security_token/arc1594.algo.ts:85-88 | on a conserving ledger, before or after bootstrap, redeem succeeds iff the amount is positive and covered; the total-supply subtraction never underflows |
| Compliance.RedeemFromFailsOnlyOnAuthAmountOrBalance | projects/arc-1400/smart_contracts/security_token/arc1594.algo.ts:74-78 | on a conserving ledger, redeemFrom succeeds iff the caller is `from` or the owner, the amount is positive and `from`'s balance covers it; the total-supply subtraction never underflows |
| Compliance.ValidateTransfer | projects/arc-1400/smart_contracts/security_token/arc1594.algo.ts:93-132 | for each status code 14, 10, 11, 40, 13, 15: the code is returned iff its check fails and every earlier check passes; 0 iff all six checks pass |
| Compliance.ValidateIsFirstFailure | projects/arc-1400/smart_contracts/security_token/arc1594.algo.ts:101-131 | validation equals an independent "first failing rule" over the ordered rule list halt, sender KYC, receiver KYC, amount, balance, lockup |
| Compliance.SetHaltDecidesValidation | projects/arc-1400/smart_contracts/security_token/arc1594.algo.ts:103-105 | after set_halt, every validation reports halted iff the flag written was 1 |
| Compliance.RevokedKycBlocksSender | projects/arc-1400/smart_contracts/security_token/arc1594.algo.ts:107-109 | after the owner writes KYC flag 0 for an account, no transfer from it validates as 0 |
| Compliance.LockupBlocksSender | projects/arc-1400/smart_contracts/security_token/arc1594.algo.ts:123-127 | after a lockup until round u, no transfer from that account validates as 0 at any round <= u, u itself included |
| Controller.OnlyController | projects/arc-1400/smart_contracts/security_token/arc1644.algo.ts:46-50 | passes iff the controller is set, equals the caller, and control is on; each failure reports the first check that fails |
| Controller.CheckJustification | projects/arc-1400/smart_contracts/security_token/arc1644.algo.ts:52-56 | aborts with justification_required exactly when justification is required and the operator data is empty |
| Controller.RateLimit | projects/arc-1400/smart_contracts/security_token/arc1644.algo.ts:58-68 | with a positive interval and a recorded last round, passes iff round >= last + interval, and on success records the round; with a zero or unset interval it leaves the state as it is |
| Controller.Authorize | projects/arc-1400/smart_contracts/security_token/arc1644.algo.ts:125-127 | a controller action passes its guards iff all three guards pass; only the rate limiter's update survives |
| Controller.SetController | projects/arc-1400/smart_contracts/security_token/arc1644.algo.ts:71-80 | owner-only; replaces the controller; turns control on only when the switch was never set, so an explicit false survives |
| Controller.SetControllable | projects/arc-1400/smart_contracts/security_token/arc1644.algo.ts:82-94 | owner-only; false always takes effect; true takes effect unless the switch is already false, and then it is silently ignored |
| Controller.SetRequireJustification | projects/arc-1400/smart_contracts/security_token/arc1644.algo.ts:96-100 | owner-only; afterwards operator data is accepted iff the flag is off or the data is non-empty |
| Controller.SetMinActionInterval | projects/arc-1400/smart_contracts/security_token/arc1644.algo.ts:102-106 | owner-only; afterwards the limiter is active iff the interval is positive |
| Controller.IsControllable | projects/arc-1400/smart_contracts/security_token/arc1644.algo.ts:109-115 | returns 0 or 1, and 1 exactly when the switch is explicitly on and a controller is set |
| Controller.IsControllableIffSomeoneMayAct | projects/arc-1400/smart_contracts/security_token/arc1644.algo.ts:109-115 | is_controllable returns 1 iff some caller would pass the controller check, and 0 otherwise |
| Controller.ControllerTransfer | projects/arc-1400/smart_contracts/security_token/arc1644.algo.ts:117-150 | succeeds iff the guards pass, from differs from to, from's balance covers the amount, and the credit fits in uint256; moves exactly the amount; other balances and the total supply are unchanged; returns 0x51 |
| Controller.ControllerRedeem | projects/arc-1400/smart_contracts/security_token/arc1644.algo.ts:152-177 | succeeds iff the guards pass and the balance and total supply cover the amount; burns exactly the amount from both; returns 0x51 |
| Controller.ControllerTransferConserves | projects/arc-1400/smart_contracts/security_token/arc1644.algo.ts:129-135 | under conservation, the forced transfer never overflows, leaves the sum of balances and the total supply unchanged, and keeps conservation |
| Controller.ControllerRedeemConserves | projects/arc-1400/smart_contracts/security_token/arc1644.algo.ts:161-164 | under conservation, the forced redemption lowers the sum of balances by exactly the amount and keeps conservation |
| Controller.DisabledIsSticky | projects/arc-1400/smart_contracts/security_token/arc1644.algo.ts:82-94 | when control is off, no controller setter turns it back on |
| Controller.RateLimitSpacesActions | projects/arc-1400/smart_contracts/security_token/arc1644.algo.ts:58-68 | after an action passes an active limiter at round r1, any action before r1 + interval is refused |
| Controller.InactiveLimiterIsTransparent | projects/arc-1400/smart_contracts/security_token/arc1644.algo.ts:59-67 | with a zero or unset interval the limiter neither refuses nor records |
| Documents.SetDocument | projects/arc-1400/smart_contracts/security_token/arc1643.algo.ts:34-46 | as written: aborts with only_owner exactly for a non-owner, and accepts every name, the empty one included; on success the name list grows by exactly this name (duplicates included) and no other name's record changes |
| Documents.SetNamedDocument | projects/arc-1400/smart_contracts/security_token/arc1643.algo.ts:34-46 | corrected write: aborts with only_owner for a non-owner and empty_name for an empty name; otherwise it is the as-written write, so get returns the stored record, the name list grows by exactly this name, and no other record changes |
| Documents.EmptyNameIsStored | projects/arc-1400/smart_contracts/security_token/arc1643.algo.ts:37 | as written, the owner stores a record under the empty name and the empty name is listed; the corrected write refuses the same call with empty_name |
| Documents.GetDocument | projects/arc-1400/smart_contracts/security_token/arc1643.algo.ts:48-52 | succeeds iff a record is stored under the name, and then returns that record; otherwise aborts with not_found |
| Documents.RemoveDocument | projects/arc-1400/smart_contracts/security_token/arc1643.algo.ts:54-63 | owner-only and aborts for a missing name; afterwards get aborts with not_found, other records are unchanged, and the name list is untouched |
| Documents.GetAllDocuments | projects/arc-1400/smart_contracts/security_token/arc1643.algo.ts:65-70 | as written: succeeds iff the name-list box exists, and then returns the stored list |
| Documents.ListDocuments | projects/arc-1400/smart_contracts/security_token/arc1643.algo.ts:65-70 | corrected listing: the stored list, or the empty list when nothing was ever stored |
| Documents.GetAllDocumentsAbortsWhenEmpty | projects/arc-1400/smart_contracts/security_token/arc1643.algo.ts:69 | on an empty registry the as-written listing aborts, while the corrected one returns [] |
| Documents.GetAfterSet | projects/arc-1400/smart_contracts/security_token/arc1643.algo.ts:38-39 | get right after set returns the stored uri and hash, timestamped with the round of the write; a later write replaces an earlier one |
| Documents.RunListsStoredNames | projects/arc-1400/smart_contracts/security_token/arc1643.algo.ts:40-44 | after any history of corrected writes and removals, the set of listed names is the earlier listing plus the names successfully stored |
| Documents.RunKeepsIndexed | projects/arc-1400/smart_contracts/security_token/arc1643.algo.ts:57-61 | every name that has a record stays in the name list after any history |
| Documents.RunNeverStoresEmptyName | projects/arc-1400/smart_contracts/security_token/arc1643.algo.ts:37 | with the corrected write, a registry that starts without the empty name never stores or lists it, whatever the history |
| Deployment.Bootstrap1400 | projects/arc-1400/smart_contracts/security_token/arc1400.algo.ts:26-69 | succeeds iff the caller is the creator, 1 <= name length <= 32, 1 <= symbol length <= 8, and there is no total supply yet; afterwards the supply and the sender's balance equal the given supply, the owner is the requested owner, the controller fields hold the given values with last round 0, and issuable is on |
| Deployment.Bootstrap | projects/arc-1400/smart_contracts/security_token/arc1400.algo.ts:10-24 | the sender becomes owner and controller; control and justification are on; the interval is 0; the sender receives the whole supply |
| Deployment.BootstrapEstablishesSupplyInvariant | projects/arc-1400/smart_contracts/security_token/arc1400.algo.ts:48-54 | bootstrapping a ledger where nobody holds anything leaves the total supply equal to the sum of balances |
| Deployment.BootstrapOnce | projects/arc-1400/smart_contracts/security_token/arc1400.algo.ts:42 | after one successful bootstrap, every further bootstrap aborts |
| Deployment.BootstrapScenario | projects/arc-1400/smart_contracts/security_token/arc1400.algo.ts:53-54 | bootstrapping 1,000,000 units credits all of them to the deployer, with conservation holding |
| Contract.StepKeepsSupplyInvariant | projects/arc-1400/smart_contracts/security_token/arc1644.algo.ts:129-164 | every state-changing call (setters, redemptions, forced actions, bootstrap) preserves conservation |
| Contract.RunKeepsSupplyInvariant | projects/arc-1400/smart_contracts/security_token/arc1594.algo.ts:77-88 | conservation holds after any sequence of calls that starts where it holds |
| Contract.StepKeepsControlOff | projects/arc-1400/smart_contracts/security_token/arc1644.algo.ts:85-93 | on a bootstrapped token, no call turns disabled control back on, and the token stays bootstrapped |
| Contract.RunKeepsControlOff | projects/arc-1400/smart_contracts/security_token/arc1644.algo.ts:83-94 | after bootstrap, control that is off stays off through any sequence of calls |
| Contract.BootstrapMayReenableControl | projects/arc-1400/smart_contracts/security_token/arc1400.algo.ts:59 | a disable made before bootstrap is not yet final: bootstrap writes the switch from its own argument |
| Contract.ZeroOwnerMayDisableBeforeBootstrap | projects/arc-1400/smart_contracts/security_token/arc1400.algo.ts:59 | before bootstrap the owner is the zero address, so a call sent from it disables control, and the deployer's bootstrap enables it again |
| Contract.RateLimitScenario | projects/arc-1400/smart_contracts/security_token/arc1644.algo.ts:58-68 | after a bootstrap with a 10-round interval (which records last round 0), a forced transfer at round 100 passes; after it an action at round 105 is rate limited and one at round 110 succeeds |

## Findings

| source | as written | input that shows it | evidently intended | confidence | as-written member | corrected member |
|---|---|---|---|---|---|---|
| projects/arc-1400/smart_contracts/security_token/arc1643.algo.ts:65-70 | `arc1643_get_all_documents` reads the `docs` box unconditionally, and reading a missing box panics | a registry where `arc1643_set_document` never succeeded: the call aborts | the listing test (arc1643.e2e.spec.ts:61-64) treats the result as the set of names stored so far, and an ERC-1643 `getAllDocuments` on a registry with no documents returns an empty list rather than failing | medium, not executed | Documents.GetAllDocuments (with Documents.GetAllDocumentsAbortsWhenEmpty) | Documents.ListDocuments (with Documents.RunListsStoredNames) |
| projects/arc-1400/smart_contracts/security_token/arc1643.algo.ts:37 | the `empty_name` assert measures `name.bytes`, the ARC-4 encoding of the name, whose 2-byte length header makes it at least 2 bytes long, so the assert never fails | the owner calls `arc1643_set_document` with an empty name: a record is stored under it and the empty name is appended to `docs` | the assert's own message, and the other length checks in the same code base (`Arc1400.bootstrap1400` at arc1400.algo.ts:38, `Arc1644._checkJustification` at arc1644.algo.ts:54), which measure `.native`: an empty name is refused | high, not executed | Documents.SetDocument (with Documents.EmptyNameIsStored) | Documents.SetNamedDocument (with Documents.RunNeverStoresEmptyName) |

## Left out

- Issuance (`arc1594_issue`) is not modelled. It credits through `arc1410_issue_by_partition`, which is not part of this model, so its effect on balances is unknown.
- The partition ledger (`Arc1410`) is not modelled: `balance_of_partition` is a stub that always returns 0.
- ARC-200 internals (`balances`, `totalSupply`, `_balanceOf`, transfer and approve) are not part of this model. Balances are a map, and `_balanceOf` is taken to return 0 for an account without a box.
- Ownership internals (`arc88_is_owner`, `arc88_initialize_owner`, `arc88_transfer_ownership`) are not part of this model. The owner is a field, ownership is equality with it, and bootstrap assigns it. Any failure those helpers might raise (such as rejecting the zero address) is not modelled.
- Event emission is not modelled, and neither is the unused `lastValidation` box. Arguments that only reach events (`data`) are dropped.
- Box and global-state storage mechanics (minimum balance, box references) are not modelled. A missing box or unset slot is a missing map key or `None`.
- Addresses are byte strings of any length: the 32-byte length that ABI decoding guarantees is not constrained, and no property depends on it.
- `Txn.sender`, `Global.round` and `Global.creatorAddress` are inputs (`Txn`, and `Token.creator`), not platform calls.
- The registry's owner is passed to `Documents` as a parameter. In the source, `Arc1643` is a sibling contract class on top of `Arc1594`, not part of `Arc1400`.
- `arc1400.algo.ts` names the fields `arc1644_controller`, `arc1594_issuable` and similar, which differ from the fields the shown classes declare. The model uses one field per concept.
- The constant `CODE_CONTROLLER_DISABLED` is declared with the same value as the success code (0x51) but is never returned, so it has no model.
