# The YTBP economy in Dafny

YTBP's system contracts share one pool of tokens: the token contract keeps balances with deposits and
locks, the system contract runs a RAM market, stakes and refunds, a name auction and producer pay, and
channel.sys keeps a ledger for users of other chains. This project models them as one machine and proves
what every run of it keeps.

* Each contract's tables are values (`Ledgers`, `Ram`, `Staking`, `Auction`, `ProducerPay`, `Channel`,
  `Msig`), and each action is a function from tables to new tables or failure.
* The contracts themselves are classes whose methods change fields one step at a time, as the source does
  (`Token`, `ExchangeState`, `SystemContract`, `ChannelSys`, `Multisig`). Every method's postcondition says
  that it reports success exactly when its function succeeds, and then leaves exactly that function's tables.
* `Economy` puts all actions of all contracts into one step function and one run. An `eosio_assert` failure
  reverts the whole transaction, and inline actions and notifications run in the same transaction; `Chain.Push`
  is the imperative form, which restores every table on failure.
* `Economy`, `RamRuns`, `PayRuns`, `Solvency`, `Locks`, `RefundTiming` and `NameRuns` hold the theorems about arbitrary
  runs.
* `NameSuffix` and `Reflection` are the two self-contained algorithms.

Arithmetic. Doubles and `std::pow` are replaced by exact arithmetic, with the truncations to `int64_t` kept as
floors: the market's root is "the largest integer that fits under the n-th power" for any weight 1000/n (the
source's .5 is n = 2000), vote shares are reals, and rates and budgets are integer quotients. Where a machine
width matters it is explicit: asset sums wrap and are then range-checked, the voting stake is a 64-bit counter,
reserved bytes are unsigned, request time plus delay is a 32-bit sum, slots and times subtract modulo 2^32 and
2^64, and the gas split is a wrapping 64-bit product.

What the code does that its comments do not say:

* buyrambytes, described as buying an exact amount, always delivers less than asked (`BuyRamBytesFallsShort`).
* The three-day refund delay holds exactly for requests made more than three days before the 32-bit clock
  runs out (`DelayHoldsUnlessClockWraps`).
* The gas split is the stated percentage exactly while amount times rate stays below 2^63
  (`NodePartExact`, `SplitOverflows`); channel rows stay non-negative in all runs exactly when the core cap is
  below 2^63/80 (`RowsStayExactly`).
* buyram checks no symbol, so it also takes a currency called RAM or RAMCORE. The market's invariants survive a
  run exactly when no such purchase succeeds in it (`RunKeepsRamExactly`); each one sets the market and eosio.ram
  back by exactly its cost (`RunHeadroom`, `StepCovers`); and one does succeed in a state where every invariant
  holds (`RamcorePurchaseBreaksTheMarket`). All other invariants hold in every run.
* channel.sys may stake for others but can never collect a refund (`DueRefundIsPaid`).
* changebw by itself would let locked tokens be given away; the check in delegatebw is what prevents it
  (`GivingAwayNeedsTheCheck`).

## Model

| member | source | states |
|---|---|---|
| Base.Plus | contracts/eosiolib/asset.hpp:131-137 | for two amounts within the asset range, the checked sum is the true sum or a failure |
| Base.PlusIsExact | contracts/eosiolib/asset.hpp:131-137 | for any two non-negative 64-bit amounts a positive checked sum is the true one, within the range |
| Base.LettersSpell | contracts/eosiolib/symbol.hpp:66-81 | the symbol codes that pass are exactly those that spell a word in capitals |
| Ledgers.TransferEffect | contracts/eosio.token/eosio.token.cpp:95-136 | a transfer succeeds exactly when the sender's balance covers it beyond deposit and, unless it stakes, lock, or it takes an exempt route, with no case lost to overflow; it moves that amount between two balances only, and every currency's holdings still equal its supply |
| Ledgers.IssueEffect | contracts/eosio.token/eosio.token.cpp:40-63 | issuing succeeds exactly within the cap for the issuer, raising supply and the issuer's balance by the same amount |
| Ledgers.RetireEffect | contracts/eosio.token/eosio.token.cpp:70-93 | retiring succeeds exactly when the issuer covers it, and never takes the supply below zero |
| Ledgers.CreateEffect | contracts/eosio.token/eosio.token.cpp:18-37 | a currency can be created exactly for a positive cap and a new code; it has nothing issued, that issuer and that cap, and nothing else changes |
| Ledgers.BalanceBounds | contracts/eosio.token/eosio.token.cpp:190-203 | no balance is negative or above its currency's supply, so none can leave the asset range |
| Ledgers.TransferKeepsLock | contracts/eosio.token/eosio.token.cpp:112-133 | outside the exempt routes a sender keeps the deposit and the lock |
| TokenContract.Token.Create | contracts/eosio.token/eosio.token.cpp:18-37 | the stats table after success, and when it fails |
| TokenContract.Token.Issue | contracts/eosio.token/eosio.token.cpp:40-68 | supply, issuer's balance and the onward transfer, or failure |
| TokenContract.Token.Retire | contracts/eosio.token/eosio.token.cpp:70-93 | supply and issuer's balance, or failure |
| TokenContract.Token.Transfer | contracts/eosio.token/eosio.token.cpp:95-136 | which debit rule applies, and the two balances, or failure |
| TokenContract.Token.SubBalance | contracts/eosio.token/eosio.token.cpp:138-152 | the debited row, erased when used up |
| TokenContract.Token.SubBalanceYta | contracts/eosio.token/eosio.token.cpp:155-187 | the debited row when deposit, and lock unless staking, stay covered and the owner is not frozen |
| TokenContract.Token.AddBalance | contracts/eosio.token/eosio.token.cpp:190-203 | the credited row, created when absent |
| Markets.Issued | contracts/eosio.system/exchange_state.cpp:4-20 | the issued amount is the largest whose n-th power stays within the connector's growth |
| Markets.SwapBound | contracts/eosio.system/exchange_state.cpp:4-46 | root and power cancel: two legs pay at most out * (in-connector + t) <= out-connector * t |
| Markets.SwapTight | contracts/eosio.system/exchange_state.cpp:4-46 | and no less than whole units allow: for every issue the deposit affords, the payout is less than one unit short of what redeeming it is worth |
| Markets.SwapKeepsProduct | contracts/eosio.system/exchange_state.cpp:4-81 | the connectors' product never falls and a non-empty connector is never drained |
| Markets.SellIsSwap | contracts/eosio.system/exchange_state.cpp:48-81 | RAM to core ends after two legs with the supply restored |
| Markets.BuyIsSwap | contracts/eosio.system/exchange_state.cpp:48-81 | core to RAM ends after two legs with the supply restored |
| Markets.BurnPays | contracts/eosio.system/exchange_state.cpp:22-46 | exchange tokens leave the supply and pay, in whole units, exactly what its n-th power shrinks by |
| Markets.CoverNeverMissing | contracts/eosio.system/exchange_state.cpp:4-81 | a conversion from RAM or core tokens fails only for a negative amount, a market without supply or an empty connector, never for lack of cover |
| Markets.TradesKeepProduct | contracts/eosio.system/exchange_state.cpp:48-81 | any run of buys and sells restores the supply, keeps both connectors positive and never lowers the product |
| Markets.TradersNeverGain | contracts/eosio.system/exchange_state.cpp:48-81 | any interleaving that ends with no more free RAM than at the start leaves no fewer tokens in the market |
| ExchangeRelay.ExchangeState.ConvertToExchange | contracts/eosio.system/exchange_state.cpp:4-20 | supply and connector after a deposit, in place |
| ExchangeRelay.ExchangeState.ConvertFromExchange | contracts/eosio.system/exchange_state.cpp:22-46 | supply and connector after a redemption, in place |
| ExchangeRelay.ExchangeState.Convert | contracts/eosio.system/exchange_state.cpp:48-81 | the recursion ends, and leaves the market and output of the conversion, or fails for unknown symbols |
| Ram.NewMarketIsSound | contracts/eosio.system/eosio.system.cpp:25-38 | a market created from any positive core supply satisfies the RAM invariant |
| Ram.Fee | contracts/eosio.system/delegate_bandwidth.cpp:124-125 | the least whole number of units that is at least half a percent |
| Ram.BuyKeeps | contracts/eosio.system/delegate_bandwidth.cpp:142-165 | a purchase keeps base + reserved = max, quotas summing to reserved, quote = first quote + stake, and base * quote >= max * first quote |
| Ram.SellKeeps | contracts/eosio.system/delegate_bandwidth.cpp:189-206 | so does a sale; the stake it leaves is never negative, so the last assertion is dead, and reserved bytes never wrap |
| Ram.SetRamKeeps | contracts/eosio.system/eosio.system.cpp:58-78 | so does an enlargement |
| Ram.SetRamExact | contracts/eosio.system/eosio.system.cpp:58-78 | succeeds exactly for a larger size below 1024^5; the limit is then that size and all that is added is free |
| Ram.BuyRamEffect | contracts/eosio.system/delegate_bandwidth.cpp:115-167 | whatever currency it is paid in, a successful purchase raises the stake by the cost and the receiver's quota by the bytes the market gave; tokens reach eosio.ram, eosio.ramfee and the market's core connector only if it is the core token |
| Ram.BuyRamSucceeds | contracts/eosio.system/delegate_bandwidth.cpp:115-167 | a purchase for core tokens succeeds exactly if the payer can spend them beyond deposit and lock, the receiver is no contract and they buy at least a byte |
| Ram.BuyRamExact | contracts/eosio.system/delegate_bandwidth.cpp:115-167 | the price invariant survives a purchase if and only if it is paid in core tokens, the byte books if and only if not in a currency called RAM |
| Ram.SellRamEffect | contracts/eosio.system/delegate_bandwidth.cpp:176-219 | what leaves the stake leaves the market and eosio.ram for the seller, who passes the fee on; the seller's quota falls and the market's RAM grows by the bytes sold |
| Ram.SellRamKeeps | contracts/eosio.system/delegate_bandwidth.cpp:176-219 | every successful sellram keeps the byte books and the price invariant |
| Ram.SellRamFunded | contracts/eosio.system/delegate_bandwidth.cpp:176-219 | a sale succeeds exactly if the seller has the bytes, is no contract, they bring more than one unit, and it can be paid and pay the fee; market and eosio.ram always cover it |
| Ram.BuyRamBytesFallsShort | contracts/eosio.system/delegate_bandwidth.cpp:95-104 | a successful buyrambytes delivers at least one byte and strictly fewer than asked |
| Ram.BuyRamBytesPays | contracts/eosio.system/delegate_bandwidth.cpp:98-104 | buyrambytes spends exactly what selling the bytes would bring, fee included |
| Staking.AgreeingSigns | contracts/eosio.system/delegate_bandwidth.cpp:234-237 | deltas that pass the absolute-value check have one sign and their 64-bit sum is exact |
| Staking.RestakeSums | contracts/eosio.system/delegate_bandwidth.cpp:250-272 | creating, changing or erasing a delegation row moves exactly the sums it belongs to |
| Staking.RevoteAgrees | contracts/eosio.system/delegate_bandwidth.cpp:383-396 | a voting stake that would wrap is refused, any other equals the sum of the owner's stakes |
| Staking.SettleSums | contracts/eosio.system/delegate_bandwidth.cpp:305-363 | netting per component conserves: stake added less payment comes out of the refund; rows stay non-negative and non-empty |
| Staking.SettleComponents | contracts/eosio.system/delegate_bandwidth.cpp:316-363 | net is set off against net and cpu against cpu, and exactly what a component lacks is paid in |
| Staking.TotalsAlwaysCover | contracts/eosio.system/delegate_bandwidth.cpp:275-298 | when the delegation row covers an unstake, the receiver's totals and the voting stake do: those assertions are dead |
| Staking.ChangeBwKeepsTables | contracts/eosio.system/delegate_bandwidth.cpp:230-407 | delband, userres, voters and refunds agree after every changebw, with or without the transfer flag |
| Staking.ChangeBwBacked | contracts/eosio.system/delegate_bandwidth.cpp:301-380 | eosio.stake's balance less stakes and refunds is unchanged, except for eosio.stake's own stakes, by exactly their amount |
| Staking.ChangeBwKeepsWealth | contracts/eosio.system/delegate_bandwidth.cpp:244-380 | liquid + staked + refund changes for nobody, except from giver to receiver of a stake given away |
| Staking.DelegateKeepsLock | contracts/eosio.system/delegate_bandwidth.cpp:409-433 | after delegatebw the staker owns no less than before, or at least deposit and lock |
| Staking.DelegateEffect | contracts/eosio.system/delegate_bandwidth.cpp:409-433 | net is staked as net and cpu as cpu, for the receiver with the transfer flag and the sender without, in delegations, totals and votes; refunds and tokens pay for it component by component |
| Staking.DelegateSucceeds | contracts/eosio.system/delegate_bandwidth.cpp:409-433 | exactly when delegatebw goes through: amounts, receiver, give-away cover, counters and payment |
| Staking.UndelegateEffect | contracts/eosio.system/delegate_bandwidth.cpp:435-445 | net is taken from net and cpu from cpu and added so to the refund, whose clock restarts; no token moves |
| Staking.UndelegateSucceeds | contracts/eosio.system/delegate_bandwidth.cpp:435-445 | exactly when undelegatebw goes through: the delegation covers both amounts and the refund does not overflow |
| Staking.RefundEffect | contracts/eosio.system/delegate_bandwidth.cpp:448-463 | the owner gets exactly what is owed, from eosio.stake, once |
| Staking.DueRefundIsPaid | contracts/eosio.system/delegate_bandwidth.cpp:448-463 | while the escrow is backed a refund succeeds if and only if it is due and its owner is an account other than eosio.stake and channel.sys |
| Staking.DelayHoldsUnlessClockWraps | contracts/eosio.system/delegate_bandwidth.cpp:454-454 | a refund is due after exactly three days, if and only if request time plus delay fits in 32 bits, and otherwise 2^32 seconds earlier |
| Auction.First | contracts/eosio.system/eosio.system.hpp:30-35 | the head of the index by unsigned negated bid |
| Auction.IndexOrder | contracts/eosio.system/eosio.system.hpp:26-30 | closed auctions order before open ones, and open ones from the highest bid down |
| Auction.ClosesTheHighest | contracts/eosio.system/producer_pay.cpp:77-91 | a close happens only while no auction is closed, more than a day of slots after the last, on a bid over a day old and more than 14 days after activation; it negates the largest bid of all rows and changes nothing else but the close time |
| Auction.ClosesExactly | contracts/eosio.system/producer_pay.cpp:67-91 | while clocks do not run backwards those conditions, with the schedule gap, are exactly when a block closes an auction; other blocks change nothing |
| Auction.BiddableNames | contracts/eosio.system/eosio.system.cpp:105-109 | exactly the names of one to eleven characters without a dot before a character that are no account yet are open to bids |
| Auction.NamingRule | contracts/eosio.system/eosio.system.cpp:152-185 | in characters, if and only if: a free name of twelve characters is open to all, a shorter one without inner dots to the winner of its auction, one with inner dots to the account spelt by its last label, any to eosio; the claimed row, and no other, leaves the auction and the account starts with nothing |
| Auction.OnlyTheWinnerClaims | contracts/eosio.system/eosio.system.cpp:158-185 | newaccount removes at most the row of the new name, closed and won by its creator |
| Auction.BidNameMoves | contracts/eosio.system/eosio.system.cpp:103-141 | the bid goes in, the beaten bid goes back to its bidder, nothing else moves |
| Auction.BidNameBacked | contracts/eosio.system/eosio.system.cpp:116-140 | eosio.names covers the sum of all bids exactly as before, and exactly the name's row now holds bidder, amount and time |
| Auction.BeatenBidIsReturned | contracts/eosio.system/eosio.system.cpp:103-141 | a bid succeeds if and only if the name is open to bids, the bidder can pay, and a bid before it is open, another's, beaten by more than a tenth and returnable |
| Auction.CloseAndClaimSurplus | contracts/eosio.system/producer_pay.cpp:86-89 | closing leaves the escrow's surplus, claiming never lowers it |
| ProducerPay.PaidWithinBuckets | contracts/eosio.system/producer_pay.cpp:190-271 | no prefix of the payments exceeds any of the three buckets |
| ProducerPay.GuardIdle | contracts/eosio.system/producer_pay.cpp:232-262 | the overall guard never stops a share |
| ProducerPay.Leftovers | contracts/eosio.system/producer_pay.cpp:274-285 | base and block leave their remainders; votes leave less than one unit per producer, or everything if nobody has votes |
| ProducerPay.Filled | contracts/eosio.system/producer_pay.cpp:171-185 | new tokens are added in full: three fifths rounded down to base, the rest in halves that differ by at most one unit in favour of votes |
| ProducerPay.RewardProdsEffect | contracts/eosio.system/producer_pay.cpp:141-287 | hddbasefound less the buckets is unchanged, the supply grows by exactly the new tokens, every producer in the lists receives its part of base, blocks and votes, base and block keep their remainders, and nobody else pays |
| ProducerPay.EarnedIsReceived | contracts/eosio.system/producer_pay.cpp:213-271 | what the payroll gives to an account is the sum of what the producers of that name earn, by the lists |
| ProducerPay.Schedule | contracts/eosio.system/producer_pay.cpp:165-166 | the budget of each of the twelve years, and exactly which times have one |
| ProducerPay.PayAllExact | contracts/eosio.system/producer_pay.cpp:213-271 | a payroll within the fund is paid if and only if every owner of a positive share is an account other than hddbasefound and channel.sys |
| ProducerPay.RewardProdsFunded | contracts/eosio.system/producer_pay.cpp:141-287 | while the fund covers the buckets rewardprods succeeds if and only if the new tokens can be issued and handed on and everyone due something can be paid |
| Channel.DeliverEffect | contracts/channel.sys/channel.sys.cpp:7-88 | a transfer to channel.sys is entered for a user or passed on in full: its backing is unchanged |
| Channel.MapcEffect | contracts/channel.sys/channel.sys.cpp:90-133 | what leaves the user's row, and no other row, leaves channel.sys for ytapro.map, even for amounts whose sum would wrap |
| Channel.MapcSucceeds | contracts/channel.sys/channel.sys.cpp:90-133 | mapc succeeds exactly if the row covers both amounts, and channel.sys beyond its own deposit and lock |
| Channel.FeetocEffect | contracts/channel.sys/channel.sys.cpp:135-167 | exactly that amount moves from the user's fee row to its balance row; rows stay non-negative |
| Channel.SubfeeEffect | contracts/channel.sys/channel.sys.cpp:169-196 | exactly that amount moves from the user's fee row to gas.sys; rows stay non-negative |
| Channel.RewardnodeEffect | contracts/channel.sys/channel.sys.cpp:254-289 | exactly that amount moves from node.sys to the user; rows stay non-negative |
| Channel.MovesSucceed | contracts/channel.sys/channel.sys.cpp:135-289 | while the total fits, feetoc, subfee and rewardnode succeed exactly if the source row exists and covers the amount |
| Channel.SplitRateBounds | contracts/channel.sys/channel.sys.cpp:202-206 | for all prices not both zero the rate is 20 and sixty times the dollar part of the prices, rounded down, so between 20 and 80 and its assertion is dead |
| Channel.DepositEntered | contracts/channel.sys/channel.sys.cpp:7-88 | while rows are backed a deposit succeeds if and only if it can be transferred, fits its sender and memo and, for kind 4, can be passed on, so no row ever overflows; the one row, if any, it raises, and who has the tokens then |
| Channel.DeliveredElsewhere | contracts/channel.sys/channel.sys.cpp:7-13 | a transfer to anyone else is just that, and changes no row |
| Channel.NodePartExact | contracts/channel.sys/channel.sys.cpp:220-222 | the node's part is the exact percentage if and only if the product fits in 63 bits |
| Channel.SplitOverflows | contracts/channel.sys/channel.sys.cpp:198-252 | a sound book on which splitgas succeeds and leaves node.sys with a negative row |
| Channel.SplitgasEffect | contracts/channel.sys/channel.sys.cpp:198-252 | gas.sys is emptied into node.sys and null.sys and the total conserved; rows stay non-negative if and only if the node's part, negative when it overflows, is covered by node.sys, which it is while the product fits |
| Channel.SplitSucceeds | contracts/channel.sys/channel.sys.cpp:198-252 | while rows are backed and the product fits, splitgas succeeds exactly if there are prices and a gas row |
| Channel.SplitsKeepRowsExactly | contracts/channel.sys/channel.sys.cpp:198-252 | every sound book of total at most the cap stays sound under every split if and only if 80 times the cap is below 2^63 |
| ChannelContract.ChannelSys.TransferCore | contracts/channel.sys/channel.sys.cpp:7-88 | which row each kind of memo credits, from whom, and what is passed on |
| ChannelContract.ChannelSys.Deliver | contracts/channel.sys/channel.sys.cpp:56-64 | a transfer with its notification and the deposit it passes on |
| ChannelContract.ChannelSys.Mapc | contracts/channel.sys/channel.sys.cpp:90-133 | row and tokens after mapc, or failure |
| ChannelContract.ChannelSys.Feetoc | contracts/channel.sys/channel.sys.cpp:135-167 | both rows after feetoc, or failure |
| ChannelContract.ChannelSys.Subfee | contracts/channel.sys/channel.sys.cpp:169-196 | both rows after subfee, or failure |
| ChannelContract.ChannelSys.Splitgas | contracts/channel.sys/channel.sys.cpp:198-252 | the three rows after splitgas, or failure |
| ChannelContract.ChannelSys.Rewardnode | contracts/channel.sys/channel.sys.cpp:254-289 | both rows after rewardnode, or failure |
| SystemContracts.SystemContract.BuyRamBytes | contracts/eosio.system/delegate_bandwidth.cpp:98-104 | prices on a copy of the market and buys for that price |
| SystemContracts.SystemContract.BuyRam | contracts/eosio.system/delegate_bandwidth.cpp:115-167 | tokens, market, totals and quota after buyram, or failure |
| SystemContracts.SystemContract.SellRam | contracts/eosio.system/delegate_bandwidth.cpp:176-219 | tokens, market, totals and quota after sellram, or failure |
| SystemContracts.SystemContract.SetRam | contracts/eosio.system/eosio.system.cpp:58-78 | market and maximum after setram, or failure |
| SystemContracts.SystemContract.DelegateBw | contracts/eosio.system/delegate_bandwidth.cpp:409-433 | all stake tables and tokens after delegatebw, or failure |
| SystemContracts.SystemContract.UndelegateBw | contracts/eosio.system/delegate_bandwidth.cpp:435-445 | all stake tables and tokens after undelegatebw, or failure |
| SystemContracts.SystemContract.ChangeBw | contracts/eosio.system/delegate_bandwidth.cpp:230-407 | the four updates in order, or failure |
| SystemContracts.SystemContract.UpdateDelband | contracts/eosio.system/delegate_bandwidth.cpp:250-272 | the delegation row created, changed or erased at zero |
| SystemContracts.SystemContract.UpdateTotals | contracts/eosio.system/delegate_bandwidth.cpp:275-298 | the receiver's row created, changed or erased when nothing is left |
| SystemContracts.SystemContract.UpdateRefund | contracts/eosio.system/delegate_bandwidth.cpp:301-380 | refunds and the payment into the escrow |
| SystemContracts.SystemContract.NetRefund | contracts/eosio.system/delegate_bandwidth.cpp:305-363 | the refund row after netting, and what remains to be paid |
| SystemContracts.SystemContract.UpdateVoter | contracts/eosio.system/delegate_bandwidth.cpp:383-396 | the voting stake, or failure when negative |
| SystemContracts.SystemContract.Refund | contracts/eosio.system/delegate_bandwidth.cpp:448-463 | tokens and refunds after refund, or failure before it is due |
| SystemContracts.SystemContract.BidName | contracts/eosio.system/eosio.system.cpp:103-141 | tokens and bids after bidname, or failure |
| SystemContracts.SystemContract.OnBlock | contracts/eosio.system/producer_pay.cpp:70-91 | bids and last close after the closing part of onblock |
| SystemContracts.SystemContract.FindDot | contracts/eosio.system/eosio.system.cpp:159-165 | the bit-shifting loop finds a dot exactly if one of the first twelve characters is one |
| SystemContracts.SystemContract.NewAccount | contracts/eosio.system/eosio.system.cpp:152-185 | bids and resource rows after newaccount, or failure |
| SystemContracts.SystemContract.StartReward | contracts/eosio.system/producer_pay.cpp:123-139 | pay starts once, with enough producers |
| SystemContracts.SystemContract.FillBuckets | contracts/eosio.system/producer_pay.cpp:161-188 | tokens issued and handed on, and the three buckets filled |
| SystemContracts.SystemContract.SumVotes | contracts/eosio.system/producer_pay.cpp:205-211 | the loops add up all votes |
| SystemContracts.SystemContract.ShareFor | contracts/eosio.system/producer_pay.cpp:213-230 | a producer's base, block and vote parts |
| SystemContracts.SystemContract.RewardProds | contracts/eosio.system/producer_pay.cpp:141-287 | with its guards and clamps it pays every share and leaves exactly the remainders, so neither guards nor clamps ever act |
| Economy.StepKeepsKernel | contracts/eosio.system/delegate_bandwidth.cpp:98-463 | every action of every contract keeps all invariants of ledger, stakes, auction, buckets and channel rows |
| Economy.RunKeepsKernel | contracts/eosio.system/eosio.system.cpp:204-215 | they hold after any run of transactions, successful or not |
| Economy.GenesisKernel | contracts/eosio.system/eosio.system.cpp:25-38 | and they hold when the market has just been created over any sound ledger, with any accounts already opened |
| Economy.StakeStepRows | contracts/eosio.system/delegate_bandwidth.cpp:409-463 | the stakes a transaction moves are those it names, net as net and cpu as cpu |
| Economy.RamStepRows | contracts/eosio.system/delegate_bandwidth.cpp:98-219 | the quotas a transaction moves are the named receiver's or seller's |
| Economy.ChannelStepRows | contracts/channel.sys/channel.sys.cpp:90-289 | the channel rows a transaction moves are those it names |
| PayRuns.StartStep | contracts/eosio.system/producer_pay.cpp:123-139 | startreward succeeds exactly before pay has started, with 21 and 42 producers, and starts the clock |
| PayRuns.StartsOnce | contracts/eosio.system/producer_pay.cpp:123-139 | over any run with non-zero clocks pay starts once if it ever does, and never again |
| PayRuns.MintsWhatIsDue | contracts/eosio.system/producer_pay.cpp:161-188 | over any run at all, pay mints what was due at its k successful calls, short of it by less than k units |
| PayRuns.InflationCap | contracts/eosio.system/producer_pay.cpp:161-188 | in any run whose pay calls fall into one schedule year, whatever else succeeds or fails in between, pay mints at most budget times elapsed time, short of it by less than one unit per successful call |
| RamRuns.StepKeepsRamExactly | contracts/eosio.system/delegate_bandwidth.cpp:98-463 | an action keeps the byte books and the price invariant if and only if it is not a purchase of RAM with anything but core tokens |
| RamRuns.RunHeadroom | contracts/eosio.system/delegate_bandwidth.cpp:115-219 | over any run the market's core tokens less the stake fall by exactly the cost of the purchases not paid in core tokens |
| RamRuns.RunKeepsRamExactly | contracts/eosio.system/delegate_bandwidth.cpp:115-219 | the books and the price invariant hold after a run if and only if no such purchase succeeded in it: nothing repairs one |
| RamRuns.GenesisRam | contracts/eosio.system/eosio.system.cpp:25-38 | they hold of a fresh market, for every positive core supply |
| RamRuns.MarketNeverDrained | contracts/eosio.system/exchange_state.cpp:4-81 | after any run from a fresh market without such a purchase: supply as created, core tokens at least as created, product kept |
| RamcorePurchase.RamcorePurchaseBreaksTheMarket | contracts/eosio.system/exchange_state.cpp:48-81 | a state with every invariant in which a purchase paid in RAMCORE succeeds, breaks the price invariant and leaves eosio.ram short |
| Solvency.StepCovers | contracts/eosio.system/delegate_bandwidth.cpp:115-463 | no action lowers what eosio.stake, eosio.ram, eosio.names, hddbasefound or channel.sys holds beyond its debts, unless that account signed it, or, for eosio.ram by exactly the cost, RAM was bought with anything but core tokens |
| Solvency.RunCovers | contracts/eosio.system/producer_pay.cpp:141-287 | the same over any run, with the costs added up |
| Solvency.RefundsAlwaysPaid | contracts/eosio.system/delegate_bandwidth.cpp:448-463 | in every state a solvent chain reaches, a refund is paid if and only if it is due and its owner can receive it |
| Solvency.BeatenBidsAlwaysReturned | contracts/eosio.system/eosio.system.cpp:103-141 | the same in every state a solvent auction reaches |
| Solvency.PayAlwaysFunded | contracts/eosio.system/producer_pay.cpp:141-287 | in every state a solvent fund reaches, rewardprods succeeds if and only if the new tokens can be issued and everyone due something can be paid, so never fails for lack of tokens |
| Solvency.SalesAlwaysCovered | contracts/eosio.system/delegate_bandwidth.cpp:189-210 | after any run from a fresh market with RAM paid for in core tokens: every quota sellable without the stake going negative, and eosio.ram able to pay |
| Solvency.RunKeepsRows | contracts/channel.sys/channel.sys.cpp:198-252 | with a core cap below 2^63/80 no channel row is ever negative, and all are backed |
| Solvency.RowsStayExactly | contracts/channel.sys/channel.sys.cpp:198-252 | for every cap an asset can have and every market weight, that holds of all runs if and only if the cap is below 2^63/80 |
| Locks.StepHolds | contracts/eosio.token/eosio.token.cpp:112-187 | no action takes a holder's liquid, staked and refundable tokens below deposit and lock, except through a listed exempt route; eosio.ram, eosio.names and channel.sys are holders like any other |
| Locks.LockedTokensStay | contracts/eosio.token/eosio.token.cpp:155-187 | over any run without an exempt route, a holder whose deposit and lock stay at least `floor` keeps at least `floor` |
| Locks.GivingAwayNeedsTheCheck | contracts/eosio.system/delegate_bandwidth.cpp:420-428 | without the extra check a holder of locked tokens could give them all away; with it the call fails |
| RefundTiming.StepRow | contracts/eosio.system/delegate_bandwidth.cpp:316-363 | every undelegation restarts the clock, nothing else does, and a row never grows otherwise |
| RefundTiming.RefundsWait | contracts/eosio.system/delegate_bandwidth.cpp:448-463 | for every run, owner and time t, what was paid by t had been undelegated by t minus the delay |
| NameRuns.ClosesApart | contracts/eosio.system/producer_pay.cpp:77-91 | any two closes of a run are more than blocks_per_day slots apart |
| NameRuns.ClosedUntilClaimed | contracts/eosio.system/eosio.system.cpp:168-174 | a closed row stays unchanged through any run until its winner creates the account |
| NameRuns.BidsGrow | contracts/eosio.system/eosio.system.cpp:126-139 | after k further bids on a name, 10^k times the highest is at least 11^k times the first |
| Chains.Chain.Push | contracts/eosio.system/eosio.system.cpp:204-215 | a transaction takes effect as a whole or not at all, keeps every invariant, and those of the RAM market if and only if it does not buy RAM with anything but core tokens |
| NameSuffix.PackUnpack | unittests/misc_tests.cpp:36-46 | a name is determined by its thirteen characters |
| NameSuffix.UnpackPack | unittests/misc_tests.cpp:36-46 | and any thirteen characters make a name |
| NameSuffix.BitsAfterLastDot | unittests/misc_tests.cpp:34-49 | the scan finds the last dot that has a non-dot after it |
| NameSuffix.ComputeSuffix | unittests/misc_tests.cpp:33-61 | for every 64-bit name the result is the characters after that dot, left-aligned, or the name itself |
| NameSuffix.OwnSuffix | unittests/misc_tests.cpp:51-52 | a name is its own suffix if and only if no dot in it precedes a character |
| NameSuffix.SuffixIdempotent | unittests/misc_tests.cpp:33-61 | the suffix of a suffix is itself |
| Reflection.Validate | tools/validate_reflection.py:581-644 | accepts if and only if the reflection is the class fields minus the ignored ones, in class order apart from swapped names, and no swapped name is in place: next in both lists after a kept name, or the start, with only later swaps between |
| Reflection.Finish | tools/validate_reflection.py:631-644 | the closing loop and assertions decide exactly that consistency |
| Msig.UnapproveUndoesApprove | contracts/eosio.msig/eosio.msig.cpp:62-89 | approve then unapprove restores both lists as multisets and nothing else changed |
| Msig.RowsCoincide | contracts/eosio.msig/eosio.msig.cpp:40-133 | in every reachable state a proposal row exists if and only if its approvals row does |
| Msig.ApprovalsConserved | contracts/eosio.msig/eosio.msig.cpp:62-89 | in every reachable state requested and provided approvals together are those first requested |
| Msig.SentAtMostOnce | contracts/eosio.msig/eosio.msig.cpp:91-133 | proposals accepted = sent + cancelled + open, so none is sent twice |
| Msig.SentWithConsent | contracts/eosio.msig/eosio.msig.cpp:108-133 | what is sent is the transaction of the latest proposal under its name, authorised by exactly the approvals given since, all of which it had asked for; no other action sends anything |
| Msig.TransactionKept | contracts/eosio.msig/eosio.msig.cpp:19-60 | in every reachable state an open proposal holds the transaction it was made with |
| Msig.ProvidedIsGiven | contracts/eosio.msig/eosio.msig.cpp:62-89 | and has as provided exactly the approvals given since and not withdrawn |
| Msig.ActionsSucceed | contracts/eosio.msig/eosio.msig.cpp:19-133 | after any history, exactly which actions succeed, in terms of what was proposed, approved, sent and cancelled |
| Msig.Multisig.DoPropose | contracts/eosio.msig/eosio.msig.cpp:19-60 | both rows after propose, or failure |
| Msig.Multisig.DoApprove | contracts/eosio.msig/eosio.msig.cpp:62-75 | the first matching request moves to the provided list |
| Msig.Multisig.DoUnapprove | contracts/eosio.msig/eosio.msig.cpp:77-89 | the first matching approval moves back |
| Msig.Multisig.DoCancel | contracts/eosio.msig/eosio.msig.cpp:91-106 | both rows erased, by others than the proposer only after expiration |
| Msig.Multisig.DoExec | contracts/eosio.msig/eosio.msig.cpp:108-133 | sent once and both rows erased, if unexpired and authorised |

## Left out

- IEEE-754 rounding of doubles and `std::pow`: all such arithmetic is exact here, as described above.
- Voting (voting.cpp): vote tallies and schedules; the model assumes it leaves stakes, balances and resources alone, and a failing vote update inside changebw is not represented.
- hdddeposit, hddlock and hddpool: deposit, lock, frozen flag, prices and schedule slots are inputs of each transaction; paydeppool2 is represented by its checks and its token transfer.
- Signatures: an action is taken as authorised by the account it names; the model says whose tokens it may spend, and msig's authority check is a parameter.
- Deferred transactions: scheduling and cancelling of the automatic refund; a refund is an action anyone may see arrive at any time.
- Memo parsing, memo length limits, printing, logs, RAM billing, `set_resource_limits` and serialization.
- The time before the RAM market row exists, but for the accounts opened in it, and int64 limits on its fields; balances in the model keep them within the token supply.
- rewardprods outside the 12-year table, where the source reads past the array: it fails in the model. `last_claim_time`, which nothing reads, is not kept.
- The activation threshold of undelegatebw, which the source sets to zero.
- The automatic ignoring of the field `id` and the regular expressions that find fields in tools/validate_reflection.py.
- ExchangeRelay.ExchangeState.ConvertFromExchange: fails when a connector does not cover the payment, where the source has no check and lets it go negative, because prices of a negative connector are roots of negative numbers; `Markets.CoverNeverMissing` shows that only a payment in a currency called RAMCORE gets there.
- ExchangeRelay.ExchangeState.Convert: fails likewise, and when at least the whole supply is redeemed, which again takes a payment in RAMCORE.
- PayRuns.InflationCap: takes pay as started and its clock as not running backwards; `PayRuns.MintsWhatIsDue` assumes neither.
- SystemContracts.SystemContract.RewardProds: requires non-negative buckets, which `Economy.RunKeepsKernel` shows of every reachable state; the two payment loops are one loop over both lists.
- Solvency.RunCovers: says nothing of runs in which a contract account itself signs a transfer, stake, bid or purchase.
- Locks.LockedTokensStay: excludes eosio.stake, whose balance is the escrow, and what the source exempts: hddbasefound and fund.sys as senders, transfers and payouts to the forfeit accounts or bare to eosio.stake, and retirement by the issuer.
- RefundTiming.RefundsWait: assumes clocks that do not run backwards and stay clear of the 32-bit wrap, where the property is false.
- Reflection.Validate: requires the distinct, disjoint lists that the source asserts while reading them, and distinct class fields.
