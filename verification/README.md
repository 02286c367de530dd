# Verification of the RioChain pallets

A Dafny model of the runtime modules that hold other people's money, and proofs about every run of them:

- **rio-assets**, the multi-asset ledger with its imbalance tokens (`Books`, `Ledger`);
- **rio-saving**, phased staking with vesting share packs, redemption and bonuses (`VestingPacks`, `PackLists`,
  `SavingModel`, `SavingLaws`, `StakePanicLaws`, `RedeemLaws`, `DispatchLaws`, `RoundTrip`, `TransferLaws`, `Pieces`,
  `Claims`, `WaysOut`, `SinglePieces`, `ClosedWay`, `BonusLaws`, `SavingCalls`, `Saving`);
- **rio-loan**, collateral loans watched block by block (`LoanTerms`, `LoanModel`, `LoanBlocks`, `LoanCalls`, `Loan`);
- **rio-bridge**, deposits and withdrawals (`BridgeModel`, `Bridge`);
- **rio-fee** and **rio-transaction-payment**, the fee pipeline (`Fee`);
- **rio-price** with the witness book of **rio-oracle** (`Medians`, `Price`).

Each module of the runtime is a class whose methods are its dispatchable calls and hooks.  Beside it stands a value type
`State` with the laws every run keeps; the methods are proved against relations between states, and the lemmas show that
the relations keep the laws.  `Run` methods tie both together: they take any sequence of calls.

How the runtime's own conventions appear:

- Storage maps read as 0 or empty where nothing is stored.  Balances are natural numbers with an explicit 128-bit bound;
  the code's unchecked additions, products and subtractions end a call with `Aborted` where they leave the range, as a
  panic does.  A panic throws the call's writes away (`Dispatch`).  An `Err` does not: it is `Failed`, and what was written
  before it stays.
- The price, the clock and the fee come in as parameters.
- rio-saving and rio-loan are wired to the ledger as in their test runtimes (`modules/rio-saving/src/mock.rs`,
  `modules/rio-loan/src/mock.rs`).
- Service accounts (collection, pawn shop, profit pool, liquidator, vault) are distinct from each other where the code relies on it,
  and the collection account and the pawn shop sign no calls.  The bridge's vault may; `BridgePallet.Bridge.Run` says what of its
  law depends on it.  Asset ids are distinct.  Root may mint and burn.
- A saving schedule is well formed (`Config.WellFormed`) when it has a phase, no phase's quota is zero, phase ids fit
  32 bits, and all shares it can ever issue stay below 2^96, so that they can be multiplied by a number of phases.

Results worth knowing:

- Nobody can touch what an account staked for itself.  From genesis, through any calls of anybody, whatever others do and whatever
  they send the account, what it staked by its own calls can be taken back once the module is unpaused, to the last unit
  (`StakeAndTakeBack`).  Of its own calls the account may make `staking`, stakes by transfer that fit into what is left of the
  schedule, and redemptions of safe pieces of that claim (`Call.Respects`).
- If it is also not sent any of the module's assets (`Call.Spares`), the account ends with exactly what it had, and holds no
  shares, IOUs or packs any more; it hands in all its IOUs of each phase, the phases in any order (`StakeAndLeave`).
- A stake by transfer that does not fit loses the excess, and one sent while the module is paused loses everything: the
  collection account keeps it without IOUs.  The account keeps its way out for the rest (`OwnTransferStakes`), and nothing is lost
  exactly if the transfer fits or is empty (`OwnTransferLosesNothing`).
- Which accounts can get out, between two payouts?
  - Pristine ones always can: in whole phases, in any order (`PristineGoes`, `WayOut`).  A redemption of one's own leaves an account
    pristine exactly if the piece was safe (`PieceKeepsWay`).  That is about this invariant, not about getting out: an account may
    redeem unsafe pieces and still be able to hand in all the rest at once (`UnsafeButOpen`).
  - Any account gets whole phases out, in a given order, exactly if its two pockets last, which can be computed before the
    first transfer (`HandInAll`, `AllGo`).  With all its IOUs and packs in one phase and no surplus it always can (`OnlyPhaseGoes`,
    `OnlyPhaseStays`), and so it can in the last phase, piece by piece (`LastPhaseFrees`).
  - If its free shares do not cover what its IOUs need beyond the locked shares of their own phases, no sequence of redemptions, of
    whatever pieces, gets it out before the next payout (`ClosedForGood`).  `SingleRedemptionsCloseTheWay` follows a pristine
    account from genesis into that state: it redeems two IOUs one by one, and one of its other two is stuck.
- Redeeming in pieces can be refused half way.  A piece of a pristine account passes the check exactly if the free shares cover
  what is not to come out of the locked ones, or the phase's locked shares go with it altogether (`PieceAccepted`); pieces that
  divide evenly always pass (`EvenPiecesPass`).  `SingleRedemptionsGetStuck` has a sixth single redemption refused.
- A stake panics exactly if the quota sum leaves 128 bits or one of the phases it reaches cannot split its part evenly
  (`StakePanics`, `CreateStaking`; `SingleUnitPanics` is one that does).  Exchange rates of at least (number of phases - 1)^2 rule the second out (`GenerousNeverPanics`).
- Splitting an amount into `n` payouts rounds up.  It works exactly when the amount is a multiple of `n`, or quotient and remainder
  together reach `n - 1` (`SplitExact`); otherwise the last payout underflows, and unchecked arithmetic would store a payout
  close to 2^128 (`UnevenSplitWraps`).
- Before the first stake, a transfer of zero shares enters its receiver in the bonus index while the circulation is zero; the next
  daily bonus then divides by zero at the start of its block (`EmptyTransferStopsBonus`).
- A loan that names its collateral is admitted within the LTV limit by either route, the ratio computed exactly (`QuotesKeepLimit`).
  The ratio the code computes later fits its machine words exactly if the worth of the collateral does (`RatioFits`): a loan
  of 1 against more collateral than that is admitted, and then no block can be built at that price
  (`RatioMayNotFit`, `GrantedStopsBlocks`).
- The route that works out the collateral rounds it down; it keeps the limit exactly if what the division throws away is less than
  the collateral is worth (`DerivedKeepsLimitWhen`, and `DerivedCollateralMayExceed` for a loan that exceeds it).  A positive minimum
  collateral closes that route, because it is compared with the amount the caller named (`GrantedWithinLimit`).  Without a
  minimum it also grants loans without any collateral, and such a loan stops the blocks by a division by zero (`StepSecures`,
  `GrantedStopsBlocks`).
- A deposit whose mint finds no room stays recorded.  The transaction is refused from then on, and never minted
  (`BridgePallet.Bridge.MakeDeposit`, `Lost` in `BridgePallet.Bridge.Run`).
- An author with withdrawal authority can name the bridge's vault itself as the account to withdraw from.  The amount is then listed
  without having come in, and the vault covers what it owes only if it had that much of its own (`BridgePallet.Bridge.Withdraw`, `WithdrawnTwice`).
- `make_transfer_between_assets` keeps the ledger square exactly when the issuance of the new asset has room
  (`Ledger.Assets.MakeTransferBetweenAssets`, `ClippedExchange`): the saturating addition at the drop clips off the rest.  A transaction fee needs
  room for the fee on top, because its deposit is dropped before its withdrawal (`FeePallet.Fees.Validate`, `ClippedFee`).

## Model

| member | source | states |
|---|---|---|
| Ledger.Imbalance.Split | modules/rio-assets/src/imbalances.rs:71-77 | a token splits into two of its kind that add up to it; the second is empty unless the first is full |
| Ledger.Assets.constructor | modules/rio-assets/src/lib.rs:104-140 | an empty ledger is square and no token is alive |
| Ledger.Assets.Bounded | modules/rio-assets/src/lib.rs:104-120 | with no token alive, free plus reserved balances are the issuance, so no balance exceeds it |
| Ledger.Assets.CreateAsset | modules/rio-assets/src/lib.rs:345-371 | refused exactly for a known id; otherwise books the initial balance, and keeps the ledger square exactly if the issuance under the id was the creator's old free balance |
| Ledger.Assets.MakeTransfer | modules/rio-assets/src/lib.rs:375-409 | moves the amount or fails for one of three reasons; the receiver's balance cannot overflow while no token of the asset is alive |
| Ledger.Assets.MakeTransferBetweenAssets | modules/rio-assets/src/lib.rs:432-473 | withdraws one asset and deposits another; issuances follow when the tokens drop; the ledger law survives exactly when the new issuance has room |
| Ledger.ClippedExchange | modules/rio-assets/src/lib.rs:432-473 | an exchange into an asset issued to the limit, which leaves the books out by one |
| Ledger.Assets.MintFree | modules/rio-assets/src/lib.rs:476-510 | succeeds exactly with permission and 128-bit room, raising balance and issuance together |
| Ledger.Assets.BurnFree | modules/rio-assets/src/lib.rs:513-553 | succeeds exactly with permission and enough balance and issuance, lowering both together |
| Ledger.Assets.Reserve | modules/rio-assets/src/lib.rs:556-586 | moves free to reserved; the sum cannot overflow while no token is alive |
| Ledger.Assets.Unreserve | modules/rio-assets/src/lib.rs:589-607 | moves back what is there and returns what was missing |
| Ledger.Assets.Issue | modules/rio-assets/src/currency.rs:113-121 | raises issuance as far as it goes against a negative token of that amount |
| Ledger.Assets.Withdraw | modules/rio-assets/src/currency.rs:176-197 | lowers a balance against a negative token, unless short of funds or restricted for transfers |
| Ledger.Assets.MakeFreeBalanceBe | modules/rio-assets/src/currency.rs:199-222 | sets a balance outright; the token is worth the difference and has its sign |
| Ledger.Assets.DepositCreating | modules/rio-assets/src/currency.rs:166-174 | raises a balance against a positive token, or panics where the sum does not fit |
| Ledger.Assets.Drop | modules/rio-assets/src/imbalances.rs:162-186 | saturating correction of the issuance; the books are out afterwards by exactly what was clipped, and a negative token never clips once no positive one is left |
| Ledger.Assets.DropBoth | modules/rio-assets/src/imbalances.rs:162-186 | the two tokens of an exchange dropped in order: square exactly if the deposit's issuance had room |
| Ledger.Assets.Merge | modules/rio-assets/src/imbalances.rs:78-87 | tokens of a kind add up, saturating; what is clipped is what the books are out by |
| Ledger.Assets.Offset | modules/rio-assets/src/imbalances.rs:88-97 | opposite tokens cancel, the larger one's sign stays, the ledger stays square |
| VestingPacks.Pack.ReleaseTidy | modules/rio-saving/src/lib.rs:130-149 | one payout: total and payout add up to the old total, one term fewer, the next payout not larger, at least the average paid |
| VestingPacks.PayoutsExact | modules/rio-saving/src/lib.rs:130-187 | a pack pays its total in exactly as many payouts as terms left: the equal ones first, then the smaller one |
| VestingPacks.PortionIsCeiling | modules/rio-saving/src/lib.rs:989-1005 | the portion is the rounded-up share, so the portions overshoot by count minus remainder |
| VestingPacks.SplitExact | modules/rio-saving/src/lib.rs:982-1026 | a split exists exactly if the amount splits evenly, and is then worth the amount in count payouts, all but the last the rounded-up share |
| VestingPacks.LargeAmountsSplit | modules/rio-saving/src/lib.rs:982-1026 | an amount of at least (count - 1)^2 always splits |
| VestingPacks.UnevenSplitWraps | modules/rio-saving/src/lib.rs:1005-1023 | what wrapping arithmetic would store otherwise: a last payout within count of 2^128 |
| VestingPacks.ReleaseKeepsShare | modules/rio-saving/src/lib.rs:130-149 | a pack at most the k/n share of its stake is at most the (k-1)/n share one payout later |
| VestingPacks.FreshStakeShare | modules/rio-saving/src/lib.rs:989-1005 | of a fresh stake at most the part due in later phases stays locked |
| VestingPacks.FreshStakeSplits | modules/rio-saving/src/lib.rs:936-1026 | a stake worth at least (phases - 1)^2 shares splits evenly, and so does what stays locked, alone or on top of older packs |
| PackLists.OthersTotals | modules/rio-saving/src/lib.rs:729-745 | taking a phase's packs out of a list leaves the other phases' totals as they were |
| PackLists.ReleasedTotals | modules/rio-saving/src/lib.rs:1054-1072 | a payout round loses nothing, in the list or in any phase |
| PackLists.PaysAverage | modules/rio-saving/src/lib.rs:1054-1072 | in a payout round every phase pays at least its average |
| PackLists.ReleasedVests | modules/rio-saving/src/lib.rs:1054-1072 | a list in step with the phase stays in step with the next; before the last phase it runs empty |
| PackLists.RepackedVests | modules/rio-saving/src/lib.rs:747-789 | a phase's locked shares in one new pack: in step, worth the balance, and there exactly if the balance splits evenly |
| PackLists.MergedVests | modules/rio-saving/src/lib.rs:936-951 | pushing and aggregating a fresh pack: one pack per phase, totals grow by the pack, other phases untouched |
| PackLists.TotalsAgree | modules/rio-saving/src/lib.rs:645-648 | selecting packs by owner or by asset gives the same total, so the check and the redemption see the same locked balance |
| SavingModel.PositionIsCanonical | modules/rio-saving/src/lib.rs:820-882 | phase and quota used are a function of the cumulative stake, which never exceeds the total quota |
| SavingModel.OverlapsAdd | modules/rio-saving/src/lib.rs:820-882 | staking in two goes fills each phase as staking once |
| SavingModel.LastPhaseIsPaidOut | modules/rio-saving/src/lib.rs:1028-1072 | in the last phase no pack remains, and every entitlement has been paid in full |
| SavingLaws.PayoutRoundEntitles | modules/rio-saving/src/lib.rs:1054-1072 | a payout round changes nobody's entitlement, free plus locked |
| SavingLaws.PayoutRoundVests | modules/rio-saving/src/lib.rs:1054-1072 | afterwards every stored list is in step with the phase to come |
| SavingLaws.PayoutRoundShareAt | modules/rio-saving/src/lib.rs:1054-1072 | the bound on locked shares per phase survives a payout round |
| SavingLaws.RoomForStake | modules/rio-saving/src/lib.rs:885-912 | whatever still fits into the schedule fits into 128 bits, in issuance and bonus index |
| SavingLaws.StakingKeepsCore | modules/rio-saving/src/lib.rs:820-882 | staking keeps the backing equation and all other laws, and outstanding IOUs grow by the stake |
| SavingLaws.StakingAddsUp | modules/rio-saving/src/lib.rs:820-882 | staking x then y is staking x + y: same position, same IOUs per phase, same entitlement |
| SavingLaws.HereFits | modules/rio-saving/src/lib.rs:834-851 | what one phase takes and the next phases take is min(amount, remaining total quota) |
| SavingLaws.NeverUneven | modules/rio-saving/src/lib.rs:936-1026 | with generous exchange rates no stake meets an uneven split |
| SavingLaws.RegisterFreshFails | modules/rio-saving/src/lib.rs:936-951 | registering a fresh pack panics exactly if the account has packs already and its locked shares of the phase no longer split evenly |
| StakePanicLaws.HereEnds | modules/rio-saving/src/lib.rs:834-882 | whether a stake panics is decided by the phase it starts in, or else by what the next one is left with; a refusal is no panic |
| StakePanicLaws.RoundOpensFresh | modules/rio-saving/src/lib.rs:1028-1072 | when a payout round opens a phase, nobody has anything locked for it |
| StakePanicLaws.PanicsLater | modules/rio-saving/src/lib.rs:820-882 | a stake that fills a phase panics exactly if its rest panics in the next phase, though that is another state with other packs |
| StakePanicLaws.GenerousNeverPanics | modules/rio-saving/src/lib.rs:820-1026 | with generous exchange rates a stake panics exactly if the quota sum leaves 128 bits |
| StakePanicLaws.RefusedIsQuiet | modules/rio-saving/src/lib.rs:834-851 | a refused stake does not panic |
| Saving.SavingModule.constructor | modules/rio-saving/src/lib.rs:250-341 | genesis satisfies all laws, and every account is free to leave with nothing to spare |
| Saving.SavingModule.OnAssetMint | modules/rio-saving/src/lib.rs:1240-1272 | shares minted to anybody but the collection account are added to account index and circulation, or the module pauses |
| Saving.SavingModule.PayPack | modules/rio-saving/src/lib.rs:885-912 | one payout is minted to the owner and indexed; it never fails while the schedule has room |
| Saving.SavingModule.PayList | modules/rio-saving/src/lib.rs:1056-1063 | one payout of every pack; empty packs are dropped |
| Saving.SavingModule.SharesReleaseByPhaseChange | modules/rio-saving/src/lib.rs:1054-1072 | every account receives the next payout of each pack; issued plus locked shares and the index stay in balance |
| Saving.SavingModule.AggregatePhaseUnreleased | modules/rio-saving/src/lib.rs:722-789 | the loop computes the phase's total and terms; total plus or minus the change goes into one pack, other packs keep their order |
| Saving.SavingModule.RegisterSharePack | modules/rio-saving/src/lib.rs:936-951 | an empty pack is ignored, a first one stored, another merged; a split that underflows panics |
| Saving.SavingModule.CreateReleasePackForSaving | modules/rio-saving/src/lib.rs:954-980 | the pack exists exactly if the stake's worth splits evenly into the phases left; the checked product never fails |
| Saving.SavingModule.StakeInPhase | modules/rio-saving/src/lib.rs:853-865 | sells x units of the current phase: IOUs, and shares of which the share of this phase, rounded up, is free and the rest locked; panics exactly if one of the two splits is uneven |
| Saving.SavingModule.ShiftNextPhase | modules/rio-saving/src/lib.rs:1028-1052 | pays everybody one term and opens the next phase, or closes the last one |
| Saving.SavingModule.StakeHere | modules/rio-saving/src/lib.rs:834-875 | the current phase takes what fits into it; exact conditions of refusal and panic |
| Saving.SavingModule.CreateStaking | modules/rio-saving/src/lib.rs:820-882 | terminates, panics exactly if the quota sum or one of the splits on its way does, stakes min(amount, remaining total quota), refuses exactly zero or a full schedule, sells phase by phase, each that fills followed by a round of payouts, and keeps all laws over as many phases as it takes |
| DispatchLaws.ReserveExact | modules/rio-saving/src/lib.rs:791-799 | the reserve of an amount is v with v * 10^8 <= price * amount * 6500 < (v + 1) * 10^8, wherever the product fits 128 bits |
| Saving.SavingModule.CreateReserved | modules/rio-saving/src/lib.rs:800-807 | that much is minted to the reserved wallet, exactly if the issuance has room |
| Saving.SavingModule.Staking | modules/rio-saving/src/lib.rs:442-463 | accepted calls move the stake to the collection account against IOUs and shares, sold phase by phase: the first payout free, the rest locked, a round of payouts for each phase that fills; 65 percent of its value at the price is minted as the reserve, exactly if its issuance has room, and that is when the call succeeds; refused calls change nothing; panics exactly if the stake or its reserve does |
| RedeemLaws.LockedPartIs | modules/rio-saving/src/lib.rs:1128-1147 | of what a redemption requires, x is to come out of locked shares: x * n <= required * (left - 1) < (x + 1) * n, with n phases from its phase on |
| RedeemLaws.CheckMeansCovered | modules/rio-saving/src/lib.rs:533-582 | a passed check says exactly that the two pockets cover the redemption; both never fall short at once |
| RedeemLaws.AggregateTaken | modules/rio-saving/src/lib.rs:687-694 | taking locked shares out of a phase keeps the list in shape, and panics exactly if what stays does not split evenly |
| RedeemLaws.RedeemKeepsInv | modules/rio-saving/src/lib.rs:588-720 | backing, cover and all other laws survive a redemption of any size |
| DispatchLaws.RedeemFits | modules/rio-saving/src/lib.rs:545-556 | for IOUs that exist, no product of a redemption leaves 128 bits |
| Saving.SavingModule.Compensate | modules/rio-saving/src/lib.rs:641-675 | each pocket's shortfall is moved to the other; neither of the two sanity checks can fail after a passed check |
| Saving.SavingModule.MakeRedeem | modules/rio-saving/src/lib.rs:588-720 | after a passed check it never fails; it panics exactly if what stays locked cannot be split; required shares leave both pockets and the stake is paid back |
| Saving.SavingModule.CollectionCanPay | modules/rio-saving/src/lib.rs:705-710 | the collection account always holds enough for the IOUs anybody holds |
| Saving.SavingModule.HandIn | modules/rio-saving/src/lib.rs:1349-1378 | IOUs that passed the check are moved and redeemed; fails exactly for want of IOUs |
| Saving.SavingModule.SudoRedeem | modules/rio-saving/src/lib.rs:495-518 | goes through exactly if accepted and evenly splittable, burning IOUs and shares and paying the stake back |
| Saving.SavingModule.Redeem | modules/rio-saving/src/lib.rs:466-492 | the same after burning that much of the reserve, which stays burned exactly if only the IOUs are missing |
| DispatchLaws.SharesMovedKeepsInv | modules/rio-saving/src/lib.rs:1076-1124 | tracked share transfers keep all laws |
| DispatchLaws.StrandedKeepsInv | modules/rio-saving/src/lib.rs:1311-1330 | IOUs sent to the collection account during a pause leave it with more than it needs |
| Saving.SavingModule.TrackShareAssetMovement | modules/rio-saving/src/lib.rs:1076-1124 | an index in step with the balances stays in step, and the pausing branches are not reached |
| Saving.SavingModule.OnAssetTransfer | modules/rio-saving/src/lib.rs:1335-1382 | what follows a transfer: nothing while paused, share tracking, or staking whose error is ignored and whose panic is exact |
| Saving.SavingModule.Transfer | modules/rio-assets/src/lib.rs:208-216 | the ledger's transfer with both hooks: exact conditions of success, what each kind of transfer does, all laws kept |
| TransferLaws.TransferUnharmed | modules/rio-saving/src/lib.rs:1311-1382 | no transfer takes anything from an account it leaves alone, whatever the hooks make of it |
| TransferLaws.OwnTransferStakes | modules/rio-saving/src/lib.rs:1335-1366 | a stake by transfer keeps its sender's way out and surplus; it loses what the schedule does not take, and everything during a pause |
| TransferLaws.OwnTransferLosesNothing | modules/rio-saving/src/lib.rs:1335-1366 | nothing is lost exactly if the transfer is empty, or the module runs and the amount fits |
| TransferLaws.StakeUnharmed | modules/rio-saving/src/lib.rs:442-451 | a stake costs nobody anything: the staker's wealth and surplus shares stay the same |
| TransferLaws.RedeemUnharmed | modules/rio-saving/src/lib.rs:588-720 | somebody's redemption leaves everybody else's way out and wealth alone |
| RoundTrip.FreeCoversPhase | modules/rio-saving/src/lib.rs:533-582 | an account whose shares cover its IOUs can cover any one phase out of free shares and that phase's locked ones |
| RoundTrip.WholePhaseRedeems | modules/rio-saving/src/lib.rs:533-720 | all its IOUs of a phase pass the check at any time, use the phase's locked shares up, and leave nothing to split |
| RoundTrip.RedeemKeepsOwnWay | modules/rio-saving/src/lib.rs:588-720 | afterwards the account can still leave every other phase |
| RoundTrip.NothingLeft | modules/rio-saving/src/lib.rs:588-720 | out of every phase, nothing is locked any more |
| Pieces.PieceAccepted | modules/rio-saving/src/lib.rs:533-582 | exactly which pieces of an account with a way out pass the check |
| Pieces.EvenPiecesPass | modules/rio-saving/src/lib.rs:533-582 | pieces whose locked part is a whole number always pass, and are safe |
| Pieces.WholePhaseIsSafe | modules/rio-saving/src/lib.rs:533-720 | so are all IOUs of a phase |
| Pieces.PieceLosesNothing | modules/rio-saving/src/lib.rs:588-720 | a redemption of any account's own loses nothing: wealth and surplus stay, and both pockets give up what the piece is worth |
| Pieces.PieceKeepsWay | modules/rio-saving/src/lib.rs:588-720 | it leaves a pristine account pristine exactly if the piece was safe; whether an account that is not pristine can get out is what WaysOut is about |
| Pieces.OwnTransferRedeems | modules/rio-saving/src/lib.rs:1311-1378 | for IOUs sent to the collection account: nothing is lost and the account stays pristine exactly if the piece was safe |
| Pieces.OwnRedeems | modules/rio-saving/src/lib.rs:466-518 | the same for redeem and sudo_redeem, whatever became of the reserve |
| WaysOut.CheckIs | modules/rio-saving/src/lib.rs:533-582 | the check, for any account and any IOUs that exist: the pockets cover the redemption, and the free one covers its part or both are emptied |
| WaysOut.HandsInOneMore | modules/rio-saving/src/lib.rs:1311-1378 | all IOUs of one more phase go through exactly if they were to, and the pockets for the other phases are then as computed |
| WaysOut.PristineGoes | modules/rio-saving/src/lib.rs:533-720 | a pristine account can hand in all its IOUs, phase after phase, in any order |
| WaysOut.PristineIsOpen | modules/rio-saving/src/lib.rs:533-720 | and is never closed |
| WaysOut.StaysClosed | modules/rio-saving/src/lib.rs:588-720 | no redemption of one's own, of whatever phase and size, opens a closed way out |
| WaysOut.ClosedForGood | modules/rio-saving/src/lib.rs:588-720 | so no sequence of them gets a closed account out: some IOUs remain |
| WaysOut.OnlyPhaseGoes | modules/rio-saving/src/lib.rs:533-720 | with IOUs and packs of one phase only and no surplus, all the rest goes through at once and takes both pockets |
| WaysOut.OnlyPhaseStays | modules/rio-saving/src/lib.rs:588-720 | and that stays so after any accepted piece |
| WaysOut.LastPhaseFrees | modules/rio-saving/src/lib.rs:533-720 | in the last phase any piece of an account whose shares cover its IOUs goes through |
| SinglePieces.SingleRedemptionsGetStuck | modules/rio-saving/src/lib.rs:533-720 | counterexample: a pristine account in lawful states redeems five IOUs one by one and is refused the sixth, while all that is left is accepted |
| SinglePieces.UnsafeButOpen | modules/rio-saving/src/lib.rs:533-720 | the first of these pieces is not safe and ends the account's being pristine, but after any number of them the rest goes through at once |
| SinglePieces.StakeLeadsThere | modules/rio-saving/src/lib.rs:442-451 | that state is where a stake leads from genesis |
| ClosedWay.SingleRedemptionsCloseTheWay | modules/rio-saving/src/lib.rs:533-720 | counterexample: two accepted single redemptions of a pristine account close its way out; both other IOUs together are refused, and after one of them the last |
| ClosedWay.StakesLeadThere | modules/rio-saving/src/lib.rs:442-451 | that account is where two stakes lead from genesis |
| ClosedWay.SingleUnitPanics | modules/rio-saving/src/lib.rs:820-1026 | a stake of one unit into three phases at one share each panics |
| Claims.ClaimStands | modules/rio-saving/src/lib.rs:1311-1382 | an account's claim, the part of its IOUs it staked for itself, stands as long as nothing is taken from it, whatever it is sent |
| Claims.ClaimStakes | modules/rio-saving/src/lib.rs:820-882 | a sale keeps every claim, and adds to the buyer's what it cost |
| Claims.PieceKeepsClaim | modules/rio-saving/src/lib.rs:588-720 | redeeming a safe piece of the claim leaves the rest of it, at the same worth |
| Claims.ClaimRedeems | modules/rio-saving/src/lib.rs:533-720 | the claim's part of a phase goes through as a whole, whatever else the account holds |
| Saving.SavingModule.WayOut | modules/rio-saving/src/lib.rs:1335-1382 | the phases' IOUs, in any order, by plain transfers: each dispatched transfer succeeds while the module runs, the whole stake is back, nothing locked, only surplus shares left |
| Saving.SavingModule.HandInAll | modules/rio-saving/src/lib.rs:1335-1382 | any account's IOUs of whole phases, in a given order: all transfers succeed exactly if its pockets last, as computed before the first |
| Saving.SavingModule.TakeBack | modules/rio-saving/src/lib.rs:1335-1382 | a claim handed in by transfers: each succeeds while the module runs, and the claim's worth is back |
| BonusLaws.BonusesFit | modules/rio-saving/src/lib.rs:1178-1210 | rounded-down bonuses take at most the users' part and leave less than one unit per holder |
| BonusLaws.NeverPausedIsFair | modules/rio-saving/src/lib.rs:1076-1124 | in never-paused runs circulation is the sum of the account index, which covers every balance of free shares |
| Saving.SavingModule.PayBonuses | modules/rio-saving/src/lib.rs:1200-1210 | the loop over holders: every transfer goes through if the index adds up, whatever the order and whether or not the pool holds shares; panics exactly if one bonus does |
| Saving.SavingModule.DispatchBonus | modules/rio-saving/src/lib.rs:1178-1213 | team and holders get their parts, balances outside the profit asset do not change; exact conditions of the panic |
| Saving.SavingModule.OnInitialize | modules/rio-saving/src/lib.rs:347-353 | a bonus exactly when unpaused and a full day past the last, whose time moves on by one day; the first block sets that time to the start of its day |
| Saving.SavingModule.EmptyTransferStopsBonus | modules/rio-saving/src/lib.rs:1099-1110 | before the first stake, any transfer of zero shares goes through, and the next block with a bonus panics |
| SavingCalls.PauseStep | modules/rio-saving/src/lib.rs:356-367 | turning the pause switch breaks no law and harms nobody |
| SavingCalls.RunMeans | modules/rio-saving/src/lib.rs:344-527 | what calls that follow one another mean from first to last: whoever they spare is unharmed, and every claim they respect is kept |
| Saving.SavingModule.Dispatch | modules/rio-saving/src/lib.rs:344-527 | every call does exactly what it is to do, and a panicking one nothing: stakes with their reserve, redemptions with theirs, transfers and what their hooks make of them, bonuses, the pause switch; all laws are kept, and only root ever pauses the module |
| Saving.SavingModule.Run | modules/rio-saving/src/lib.rs:344-527 | call by call, each does what it is to do; any run keeps full backing, cover, vesting and index laws; whoever its calls spare has lost nothing, and every claim they respect is kept at its worth |
| Saving.SavingModule.StakeAndLeave | modules/rio-saving/src/lib.rs:250-527 | genesis, any run and the way out together: a spared account has its starting balance back and holds no shares, IOUs or packs |
| Saving.SavingModule.StakeAndTakeBack | modules/rio-saving/src/lib.rs:250-527 | genesis, any run and the claim together: whatever others do or send, the account ends with at least what it had |
| LoanTerms.NestedFloor | modules/rio-loan/src/lib.rs:987-990 | dividing twice is dividing by the product |
| LoanTerms.MaxLoanIsLargest | modules/rio-loan/src/lib.rs:978-985 | a loan is at most the maximum exactly if loan * 10^8 <= collateral * price * limit |
| LoanTerms.QuoteIs | modules/rio-loan/src/lib.rs:952-999 | which requests are quoted, and the amounts, in plain numbers: a request that names both exactly if its ratio, rounded down, is within the limit |
| LoanTerms.RatioExact | modules/rio-loan/src/lib.rs:165-172 | the ratio is x with x * worth <= loan * 10^8 < (x + 1) * worth, computed exactly if worth is positive and the numbers fit |
| LoanTerms.QuotesKeepLimit | modules/rio-loan/src/lib.rs:952-999 | both routes that name the collateral admit only loans within the LTV limit, the ratio computed exactly, whether or not it fits its word |
| LoanTerms.RatioFits | modules/rio-loan/src/lib.rs:165-172 | the ratio of an admitted loan can be computed exactly if the worth of its collateral fits 128 bits |
| LoanTerms.RatioMayNotFit | modules/rio-loan/src/lib.rs:987-999 | counterexample: a loan of 1 that is admitted though its ratio cannot be computed |
| LoanTerms.DerivedKeepsLimitWhen | modules/rio-loan/src/lib.rs:969-976 | exactly when the route that works out the collateral keeps the limit, gives collateral at all, and how far it can exceed the limit |
| LoanTerms.DerivedCollateralMayExceed | modules/rio-loan/src/lib.rs:969-976 | counterexample: the route that works out the collateral rounds it down past the limit |
| LoanTerms.CreditIsRest | modules/rio-loan/src/lib.rs:642-652 | drawable credit is the largest loan less the loan |
| LoanTerms.CreditIsLargest | modules/rio-loan/src/lib.rs:642-653 | a draw is within the credit exactly if (loan + draw) * 10^8 <= collateral * price * limit, and that product fits |
| LoanTerms.DrawKeepsLimit | modules/rio-loan/src/lib.rs:642-653 | a draw within the credit keeps the limit at the current price |
| LoanTerms.AdmittedRateIsLow | modules/rio-loan/src/lib.rs:732-733 | an admitted loan shows that days * 24 * hourly rate of its package is below 10^8 |
| LoanTerms.InterestBelow | modules/rio-loan/src/lib.rs:119-125 | so the interest of a later draw never exceeds the draw |
| LoanTerms.InterestExact | modules/rio-loan/src/lib.rs:119-125 | the interest is i with i * 10^8 <= amount * days * 24 * hourly rate < (i + 1) * 10^8, exactly where the product fits |
| LoanTerms.DuesExact | modules/rio-loan/src/lib.rs:127-136 | a loan is due its term in days from now, and expires two days later, in milliseconds that fit 64 bits |
| LoanTerms.FeeIs | modules/rio-loan/src/lib.rs:174-195 | the fee of an expired loan is penalty plus interest at the price, each rounded down from the exact product, and exactly when it can be computed |
| LoanTerms.FeeBound | modules/rio-loan/src/lib.rs:174-195 | penalty and interest together against the exact rates |
| LoanTerms.FeeBelowCollateral | modules/rio-loan/src/lib.rs:174-223 | below the warning ratio the expiry fees of an affordable package stay strictly below the collateral |
| LoanTerms.NoDivisionByZero | modules/rio-loan/src/lib.rs:165-172 | a collateralised loan in an affordable package takes its turn without dividing by zero: the fees of an expired one leave some collateral |
| LoanTerms.TurnLaws | modules/rio-loan/src/lib.rs:1035-1107 | after a turn: collateral plus fee as before, collateral positive, liquidated exactly at or above the threshold, not expired if it was below warning |
| LoanTerms.TurnIsWatched | modules/rio-loan/src/lib.rs:1035-1107 | in plain numbers, which turns can be computed and what they do: only an expired loan pays its fees and begins anew, others keep all but their status, and the status says on which side of the thresholds the ratio is |
| LoanModel.GrantedWithinLimit | modules/rio-loan/src/lib.rs:693-733 | a positive minimum closes that route; a granted loan is within the limit exactly if it named its collateral or the rounding allows it |
| LoanModel.LentIs | modules/rio-loan/src/lib.rs:693-810 | a granted loan in plain numbers: the quoted amounts, both dates, and what of it the pool receives |
| LoanModel.LentKeepsLaws | modules/rio-loan/src/lib.rs:693-810 | a new loan keeps books, indexes and soundness |
| LoanModel.RepaidKeepsLaws | modules/rio-loan/src/lib.rs:539-630 | so does a repayment |
| LoanModel.LiquidatedKeepsLaws | modules/rio-loan/src/lib.rs:813-912 | and a finished liquidation, whose debt and collateral stay in the totals |
| LoanModel.ShopCovers | modules/rio-loan/src/lib.rs:554-558 | the shop always holds every loan's collateral, and no loan exceeds the total |
| LoanBlocks.OneTurn | modules/rio-loan/src/lib.rs:1035-1107 | one loan's turn extends what is known of the loop: loans, liquidation list and fees |
| LoanBlocks.BlockLooks | modules/rio-loan/src/lib.rs:1023-1129 | after all turns every loan that was not in liquidation is as its numbers say, and those that were are as before |
| LoanBlocks.BlockKeepsLaws | modules/rio-loan/src/lib.rs:1023-1129 | a block keeps books, indexes and soundness |
| LoanBlocks.BlockIsSafe | modules/rio-loan/src/lib.rs:1023-1177 | after a block every loan is in liquidation or below the threshold, and no loan that was below warning is left expired |
| LoanBlocks.BlocksDivide | modules/rio-loan/src/lib.rs:165-172 | with affordable packages and a positive price no turn of a sound state divides by zero |
| LoanBlocks.GrantedStopsBlocks | modules/rio-loan/src/lib.rs:1023-1107 | a granted loan whose collateral is worth nothing, or more than 128 bits, cannot take its turn in any later block at that price |
| LoanCalls.StepSecures | modules/rio-loan/src/lib.rs:300-461 | a call leaves every loan with collateral exactly unless it grants one that names none and is worth less than one unit of it |
| LoanCalls.BlockStepIsSafe | modules/rio-loan/src/lib.rs:1023-1177 | after a block that ran, every loan is in liquidation or below the threshold |
| LoanPallet.LoanModule.constructor | modules/rio-loan/src/lib.rs:246-292 | an empty book satisfies all laws |
| LoanPallet.LoanModule.MintLoan | modules/rio-loan/src/lib.rs:756-795 | interest to the pool and the rest to the borrower, or nothing at all |
| LoanPallet.LoanModule.CreatePackage | modules/rio-loan/src/lib.rs:392-398 | exact conditions, and the package under a fresh id |
| LoanPallet.LoanModule.DisablePackage | modules/rio-loan/src/lib.rs:528-537 | inactive for new loans, still known to old ones |
| LoanPallet.LoanModule.Apply | modules/rio-loan/src/lib.rs:693-810 | granted exactly under conditions in plain numbers; the pool receives the interest of the term in the package's fields, the borrower the rest; both dates; within the LTV limit exactly if it names its collateral or the rounding allows it; a refusal leaves all balances as they were |
| LoanPallet.LoanModule.Draw | modules/rio-loan/src/lib.rs:633-691 | granted exactly if loan and draw together are within the limit and all numbers fit; the pool receives the interest of the draw, the borrower the rest |
| LoanPallet.LoanModule.Repay | modules/rio-loan/src/lib.rs:539-630 | succeeds exactly for the owner with enough of the loan asset outside liquidation; the shop never lacks collateral |
| LoanPallet.LoanModule.AddCollateral | modules/rio-loan/src/lib.rs:916-948 | the owner's collateral goes to the shop, loan and total grow alike |
| LoanPallet.LoanModule.MarkLiquidated | modules/rio-loan/src/lib.rs:813-912 | out of the auction the shop gets the debt, the pool the rounded-down penalty rate of what is left, the borrower the rest; the loan is struck off; an auction below the debt never succeeds |
| LoanPallet.LoanModule.TakeTurns | modules/rio-loan/src/lib.rs:1035-1107 | the loop over all loans: every one takes its turn, or the block panics exactly if the numbers of some turn do not fit |
| LoanPallet.LoanModule.OnEachBlock | modules/rio-loan/src/lib.rs:1023-1129 | every loan by its numbers: an expired one loses exactly penalty and interest out of its collateral and is due anew, the others keep theirs, each with the status its ratio and dates say; the fees go from shop to pool, and that transfer never fails; panics exactly if some loan's numbers do not fit |
| LoanPallet.LoanModule.Dispatch | modules/rio-loan/src/lib.rs:300-461 | every call does exactly what it is to do, panicking or not, and keeps all laws; the starting issuance is fixed, the shop's surplus grows only by gifts |
| LoanPallet.LoanModule.Run | modules/rio-loan/src/lib.rs:300-461 | state by state and call by call: totals equal ledger and loans, indexes inverse and duplicate-free, and after every block each loan in liquidation or below its threshold; with affordable packages, positive prices and collateral behind every loan no next turn divides by zero |
| BridgeModel.RefundIsCovered | modules/rio-bridge/src/lib.rs:154-163 | a vault that covers what it owes covers every listed withdrawal |
| BridgeModel.RemoveFirstIsOne | modules/rio-bridge/src/lib.rs:298-312 | exactly one occurrence goes, as a multiset and in the sum |
| BridgeModel.ReleaseFirst | modules/rio-bridge/src/lib.rs:209-225 | minting the first held deposit keeps the others distinct, recorded and unminted; it was never minted before |
| BridgeModel.DropAll | modules/rio-bridge/src/lib.rs:195-206 | forgetting held transactions forgets no minted one |
| BridgePallet.Bridge.SimpleDeposit | modules/rio-bridge/src/lib.rs:249-268 | the record is written in any case, the mint exactly if the issuance has room |
| BridgePallet.Bridge.MakeDeposit | modules/rio-bridge/src/lib.rs:137-151 | a transaction seen before, or from an author without the authority, is refused and changes nothing; below the threshold or to a white account it is minted to the account if there is room, and recorded for nothing otherwise; any other waits, and no balance moves |
| BridgePallet.Bridge.MarkWhite | modules/rio-bridge/src/lib.rs:209-225 | held deposits are minted to the account in order; after a failure exactly the unprocessed ones stay held |
| BridgePallet.Bridge.MarkBlack | modules/rio-bridge/src/lib.rs:195-206 | the held deposits and exactly their records are dropped |
| BridgePallet.Bridge.Withdraw | modules/rio-bridge/src/lib.rs:177-191 | exactly with the authority and enough balance the amount moves to the vault and is listed, of whichever account; a withdrawal from the vault itself is covered exactly if the vault has as much of its own |
| BridgePallet.Bridge.RemoveFromPendingWithdraws | modules/rio-bridge/src/lib.rs:298-312 | the loop deletes exactly the first occurrence |
| BridgePallet.Bridge.Refund | modules/rio-bridge/src/lib.rs:154-163 | succeeds exactly for an authorised, listed withdrawal the vault has the money for, and a vault that covers what it owes always has |
| BridgePallet.Bridge.WithdrawFinish | modules/rio-bridge/src/lib.rs:166-174 | one occurrence is struck off, the amount stays in the vault |
| BridgePallet.Bridge.Run | modules/rio-bridge/src/lib.rs:97-229 | call by call, each does what it is to do; no transaction is minted twice, held ones are distinct, recorded and unminted, issuance is what was minted, and the vault's balance is its base plus what it owes and has paid; it keeps covering that unless a call takes from the vault; lost transactions stay lost |
| BridgePallet.WithdrawnTwice | modules/rio-bridge/src/lib.rs:177-191 | two withdrawals that name the vault itself, and the vault owes more than it has |
| FeePallet.ChargedFuel | modules/rio-transaction-payment/src/lib.rs:259-285 | a charge lowers the payer's combined holding and raises the fee account's by exactly the fee |
| FeePallet.Fees.BuyFeeAsset | modules/rio-fee/src/lib.rs:75-103 | converts min(needed, locked, allowed) exactly if the ledger can; the combined issuance is kept exactly if that of RFUEL has room |
| FeePallet.Fees.OnNonzeroUnbalanced | modules/rio-fee/src/lib.rs:62-68 | the deposit's token is dropped before the withdrawal's; the issuance ends where it started, or below by what was clipped |
| FeePallet.Fees.Validate | modules/rio-transaction-payment/src/lib.rs:249-292 | exact conditions of acceptance, refusal and panic; spends locked RFUEL first; books square and combined issuance kept exactly if issuance has room for the spent part and the fee |
| FeePallet.ClippedFee | modules/rio-transaction-payment/src/lib.rs:249-292 | a fee of one out of an issuance at its limit: paid in full, and one unit of issuance is gone |
| Medians.SortedSorts | modules/rio-price/src/lib.rs:117-118 | a sorted permutation |
| Medians.SortInPlace | modules/rio-price/src/lib.rs:117-118 | the array is sorted in place |
| Medians.Median | modules/rio-price/src/lib.rs:112-130 | whichever way the numbers are put in order: the middle one, or half the sum of the two in the middle, or a panic where that sum does not fit |
| Medians.MedianIs | modules/rio-price/src/lib.rs:112-130 | there is exactly one such median |
| Medians.MedianIgnoresOrder | modules/rio-price/src/lib.rs:117-130 | permuted reports have the same median |
| Medians.MajorityHoldsMedian | modules/rio-price/src/lib.rs:112-130 | a strict majority within two bounds keeps the median there, for odd and even counts |
| Medians.HalfIsNotEnough | modules/rio-price/src/lib.rs:112-130 | tightness: for every number of reports and any part of them up to one half, there are reports that put the median outside |
| PricePallet.KeptHolds | modules/rio-price/src/lib.rs:69-75 | the filter keeps exactly the fresh reports, reporters distinct |
| PricePallet.Price.AddPrice | modules/rio-price/src/lib.rs:80-109 | replaces the reporter's price or appends it, and notes the block; reporters stay distinct |
| PricePallet.Price.OnFinalize | modules/rio-price/src/lib.rs:55-75 | the price becomes the median of all stored reports, whichever way they are put in order, then the reports older than the interval are dropped |
| PricePallet.Price.EndBlock | modules/rio-oracle/src/lib.rs:77-87 | the price is the middle report, or half the sum of the two in the middle, or the block panics where that sum does not fit; no report enters it more than the interval and one block after it was made; a strict majority bounds it |
| PricePallet.Price.Run | modules/rio-price/src/lib.rs:45-109 | that holds at every block end of any run, whose states follow one another by reports and medians |

## Left out

- Saving.SavingModule.Run: calls signed by the collection account are not part of a run, and neither is minting or burning of the module's assets by root in mid-run.  Once the module was paused, shares issued and locked are only bounded from below by the outstanding IOUs, because IOUs sent to the collection account during a pause are worth nothing.
- LoanPallet.LoanModule.SettleDebt: the revert branches of a repayment, which its checks make unreachable, are not written out.
- Medians.SortInPlace: the library sort is modelled as insertion sort; any sort gives the same list.
- Schedules with a phase of quota zero, where staking is refused for good once that phase is reached.
- Release builds, where unchecked 128-bit arithmetic wraps instead of panicking; `UnevenSplitWraps` shows the one place where that would go unnoticed.
- In `create_staking` the quota of an unfilled phase is written before the mints, in the model after them; nothing reads it in between.
- `ShareAssetCollected`: nothing ever puts a value there, so the branches for shares returned in advance are not modelled, and neither are release triggers other than the phase change.
- `Currency::burn`, whose reduced issuance is computed but not stored, `slash`, which is not implemented, and `FromToContext`, whose destructor never runs.
- Configuration setters: the two threshold setters of rio-loan write each other's cell, and `set_iou_asset_id_for_phase` does not keep phases and assets one-to-one.
- Ids of phases, loans and packages beyond their machine words, except that an id counter at its limit panics.
- Administration of the bridge's authorities, and its pause switch, which no call consults.
- Oracle fees, elections and staking, of which only the parameters exist.
- The fee formula, weights, events, symbols, the versioned permission encoding, the genesis endowment, origins beyond who the caller is, and checks for asset id zero.
- The node, its command line, chain specification, runtime wiring and price reporters.
