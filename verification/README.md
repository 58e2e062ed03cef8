# Spend limits and state machine of the Obi proxy contract

A Dafny model of a CosmWasm wallet proxy, with proofs. An admin may send anything through
the contract; listed *hot wallets* may spend up to a USDC limit per period of days or
months; a one-off *fee debt* is repaid by a message the contract inserts before the first
spend; the admin is replaced in two steps.

The model follows the Rust sources file by file:

| file | models |
|---|---|
| `Prelude.dfy` | machine integers, the cast to u64, saturating sums, results and errors |
| `Calendar.dfy` | the Gregorian calendar behind the date library, by linear months |
| `Pricing.dfy` | pair tables, exchange queries, conversion to and from USDC |
| `HotWallet.dfy` | the wallet record updated in place, and its specification as a value |
| `Submsgs.dfy` | classification of messages and the coins they spend |
| `State.dfy` | the stored configuration and the loaded copy that is changed in place |
| `Machine.dfy` | every entry point as a function on the stored configuration |
| `Proxy.dfy` | the contract's code over storage, proved to refine `Machine.dfy` |
| `SpendProperties.dfy`, `RateLimit.dfy` | what a spend, a refill and a budget mean for one wallet |
| `WalletList.dfy`, `Frames.dfy`, `ExecuteProperties.dfy` | what single calls and batches do and leave alone |
| `Acceptance.dfy`, `Sequences.dfy` | exactly which batches pass, and when a batch does what its parts do |
| `EntryPoints.dfy` | every entry point in terms of stored fields, messages and the exchange's answers |
| `Runs.dfy`, `RateBounds.dfy`, `Tightness.dfy` | whole runs: debt, handover, simulation, rate bounds |
| `Witnesses.dfy` | inputs at which the code departs from its comments |

How the source's behaviour is rendered:

- Each entry point is a transaction. Storage is written early, as in the source, and the
  chain's rollback on an error is `Proxy.Transact` and `Machine.Apply`.
- A Rust panic (indexing an empty list, a month that does not exist, an overflowing u16
  addition) is the error `Panicked`, which no code can catch.
- The exchange is an arbitrary function from a pair contract and a query to an optional
  answer, so everything holds for all prices; it may differ from one transaction to the next.
- Address validation is an arbitrary predicate; block time is a u64 of nanoseconds.
- The charge for a coin is its USDC value cast to u64, as the source writes it.
- A wallet borrowed mutably from the list is copied out, changed in place and written back.

Where the code departs from its comments, or one operation from another, the model follows
the code. Each case has an exact condition, and an input at which it shows:

| case | exact condition | input |
|---|---|---|
| `src/msg.rs:34` says the current admin cancels a proposal; the code lets only the pending address do so | `CancelIsExact` | `AdminCannotCancel` |
| `src/contract.rs:124` gives the token-contract shortcut to the admin too; the code asks for a listed hot wallet | `ShortcutIsForListedWallets` | `DebtorAdminHasNoShortcut` |
| `src/msg.rs:25-27` says a simulation attaches no messages; the shortcut ignores the flag | `SimulationStep` | `SimulatedShortcutIsSent` |
| A simulation can clear the debt with no repayment sent | `StepRepayments` | `SimulationClearsSilently` |
| `src/msg.rs:59-60` describes the query as what a hot wallet may spend; it tests the coins of a send one by one | `SendMatchesQuery` | `QueryCountsCoinsSeparately` |
| The query also answers for delegations, which a hot wallet can never execute | `DelegationsAreNotExecuted` | `DelegationIsAdmittedOnly` |
| `src/msg.rs:53-54` says what the query admits will execute; an admin's message still fails on a debt it cannot pay, or on a type that is unknown while there is debt | `CanExecuteNeedsPayableDebt` | `CanExecuteAdmitsDelegation` |
| `src/msg.rs:37-38` says a hot wallet can call CW20 Transfer and Send within its limit; on the built-in pair tables no token has a price, so only shortcut calls pass | `ContractCallsNeedShortcut` | `TransferOfNothingFails` |
| A batch and its two parts sent in a row can differ | `BatchIsSequence`, `ShortcutFirstNeverAgrees`, `ShortcutSecondAgrees` | `BatchDiffersFromSequence` |
| A month period whose working month is 24, 36, ..., 264 asks for month 0 and aborts | `MonthResetIsExact`, `MonthMultiplesThatNeverFail` | `TwelveMonthsInDecember` |
| A period of 0 months has no limit at all | `RefillsOncePerBlock` | `ZeroMonthsHasNoBound` |
| A coin worth 2^64 or more is charged less than its value | `TallyIsTheDrop` | `CastChargeExample` |

## Model

| member | source | states |
|---|---|---|
| RateBounds.DayRateBound | src/state.rs:165-188 | For any prices and any stretch of a time-ordered run spanning at most T seconds, every DAYS wallet that is not re-added is charged at most what was left at the start of the run, or the amount if that is more, and the amount once more per started P seconds, P being one second more than the period, for every multiple. |
| RateBounds.MonthRateBound | src/hot_wallet.rs:161-187 | For any prices, a MONTHS wallet with multiple m >= 1 is charged, from linear month a to month b of a run, at most what was left plus the amount once for each of the months a, a + m, ... up to b; aborted refills need no exception. |
| RateLimit.DayAllowanceClosedForm | src/hot_wallet.rs:150-160 | The day bound of a wallet within its limit in closed form: amount * (ceil(T / P) + 1), which is at most amount * (T / P + 2). |
| RateLimit.AllowanceClosedForm | src/hot_wallet.rs:161-173 | The refills of the month bound in closed form: amount * ((b - a) / m + 1). |
| Tightness.DayRateBoundIsReached | src/hot_wallet.rs:43-45 | The day bound is the best possible: for every n whose last scheduled second fits in u64 nanoseconds, a full wallet of a sender that owes nothing has an ordered run of n + 1 sends whose charges equal the bound. |
| Tightness.MonthRateBoundIsReached | src/hot_wallet.rs:161-187 | The month bound is reached too, for every multiple from 1 to 11 and every such n >= 1, by a full wallet whose reset lies within a month. |
| Tightness.ZeroMonthsHasNoBound | src/hot_wallet.rs:161-165 | With a multiple of 0 months, a run of one execute of n sends charges the whole amount n times, for every n >= 1, once the month has begun and the reset is past; so no month bound holds for that multiple. |
| RateLimit.AccessTakesFromBudget | src/state.rs:177-187 | Ledger: with or without a refill, an access lowers the budget up to any later moment by exactly its charges. |
| RateBounds.CheckBatchTakesFromBudget | src/contract.rs:149-163 | The same ledger for a whole batch: the charges of its messages leave the sender's budget, and nothing else does. |
| RateBounds.RunTakesFromBudget | src/state.rs:179-187 | All that a run charges up to a moment fits in the budget the wallet had when it began. |
| RateBounds.RunValueSentIsCharged | src/hot_wallet.rs:84-85 | While no coin is worth 2^64 or more, the USDC value of all that a run sends out for another than the admin, shortcut calls included, is at most what it charges, on every built-in pair table. |
| RateBounds.DayValueBound | src/msg.rs:37-38 | End to end, in days: on a built-in pair table and while no coin is worth 2^64 or more, all that a wallet within its limit gets sent out in any T seconds is worth at most amount * (T / P + 2). |
| RateBounds.MonthValueBound | src/msg.rs:37-38 | End to end, in months: what is sent out from linear month a to b is worth at most what was left plus amount * ((b - a) / m + 1). |
| Calendar.MonthStartIsPosix | src/hot_wallet.rs:147-173 | Counting month by month with the leap-year rule gives the seconds-since-the-epoch formula of IEEE Std 1003.1-2017, section 4.16, for every year. |
| Calendar.MonthStartInYear | src/hot_wallet.rs:147-173 | Within every year the months start after the days of the usual table, one more from March on in a leap year. |
| Calendar.SecondsIsFloor | src/hot_wallet.rs:146-160 | A block time in nanoseconds is cut to whole seconds. |
| SpendProperties.MonthResetIsExact | src/hot_wallet.rs:161-177 | A month reset is computed iff the working month is 2 to 268 and not a multiple of 12 above 12; then it is midnight on the 1st exactly that many linear months later, fits in a u64, and is in the future iff the multiple is not 0. Which failures are panics and which are errors is exact as well. |
| SpendProperties.RefillIsExact | src/hot_wallet.rs:146-188 | A refill succeeds iff there is a limit and the period can be computed; it makes the whole amount available, sets exactly the next reset and changes nothing else; each failure has its error. |
| SpendProperties.MonthMultiplesThatNeverFail | src/hot_wallet.rs:161-177 | A month period can be computed at every block time iff its multiple is 1 to 11. |
| Witnesses.TwelveMonthsInDecember | src/hot_wallet.rs:166-173 | In December 1970 a refill of a period of 12 months panics. |
| SpendProperties.DayResetIsExact | src/hot_wallet.rs:146-160 | For every u64 block time and u16 multiple, a day reset is exactly now plus that many days: no failure, overflow or lossy cast. |
| SpendProperties.RefillsOncePerBlock | src/hot_wallet.rs:179-187 | After a refill a later check at the same block time refills again iff the period is 0 months and the month has begun. |
| RateLimit.RefillMovesGate | src/hot_wallet.rs:179-187 | A refill puts the next one at least a full period ahead, in seconds or in months, for every nonzero pace. |
| HotWallets.SpendIsExact | src/hot_wallet.rs:123-144 | A spend succeeds iff every coin converts and the charges sum to at most what is left; then the limit drops by exactly the sum. |
| HotWallets.HotWallet.ProcessSpendVec | src/hot_wallet.rs:123-137 | The in-place loop ends with the wallet the specification gives and returns the saturated sum of USDC values; on an error it reports the first failing coin and leaves exactly the coins before it charged. |
| HotWallets.HotWallet.CheckSpendVec | src/hot_wallet.rs:105-121 | The read-only loop returns the same tally or the first failing coin's error, testing each coin against the same limit. |
| HotWallets.HotWallet.ResetPeriod | src/hot_wallet.rs:146-188 | The in-place refill; a month error leaves the limit refilled, any other error leaves the wallet unchanged. |
| HotWallets.HotWallet.ReduceLimit | src/hot_wallet.rs:139-144 | One coin lowers the limit by its charge or changes nothing. |
| HotWallets.SpendInParts | src/hot_wallet.rs:123-137 | Spending x ++ y is spending x and then y, errors included. |
| SpendProperties.SpendIgnoresOrder | src/hot_wallet.rs:123-137 | Permuting the coins changes neither success nor the final wallet. |
| SpendProperties.TallyIsTheDrop | src/hot_wallet.rs:84-91 | On success, drop, sum of values and saturated tally coincide iff every coin is worth less than 2^64. |
| SpendProperties.CastChargeExample | src/hot_wallet.rs:84-85 | A concrete coin of 2^64 micro-USDC is charged 0. |
| SpendProperties.CheckSpendIsPerCoin | src/hot_wallet.rs:105-121 | The query's test passes iff each coin on its own converts and fits. |
| SpendProperties.AccessIsExact | src/state.rs:177-187 | An access succeeds iff a due refill can be computed, every coin converts and the sum fits in the applicable limit; it changes only what is left and the reset time, to exactly the stated values. |
| SpendProperties.AccessRefusal | src/state.rs:177-187 | A refused access has the error of the refill that cannot be computed, or of the first coin that has no price, no limit, or does not fit after those before it, with its USDC value. |
| SpendProperties.SettingsFieldByField | src/hot_wallet.rs:139-188 | What spends and refills keep, field by field: all but what is left of the first limit and the reset time. |
| States.State.CheckAndUpdateSpendLimits | src/state.rs:165-188 | The in-place check finds the sender's first wallet and changes only it; the admin is never limited, a stranger is refused; after an error too, the loaded list is exactly the old one with that wallet as far as it was charged or refilled. |
| States.State.CheckSpendLimits | src/state.rs:190-209 | The read-only check, with the tally it reports. |
| States.State.GetPairContract | src/state.rs:77-97 | The table loop returns the first pair that joins the denoms and whether it is stored reversed. |
| Pricing.FindPairIsFirst | src/state.rs:77-97 | The search fails iff no pair joins the denoms; else it returns the first that does, with its true stored order. |
| Pricing.JunoQueryDirection | src/sourced_coin.rs:34-95 | For a Juno-type pair, swap and reverse swap send the same query, which offers the amount in the first denom for the second, whichever way round the pair is stored; the answer is read and labelled in the second. A coin is converted by offering it for USDC, a USDC target by offering USDC for the coin's denom. |
| Pricing.LoopQueryDirection | src/pair_contract.rs:77-107 | A Loop-type pair is asked in its first denom and answers in its second, as an offer or an ask depending on how it is stored, for swap and reverse swap alike. |
| Pricing.ResponseAsset | src/pair_contract.rs:77-107 | A price is labelled with the wanted denom iff the pair is of Juno type or stored in the asked order. |
| Pricing.TableOfNetwork | src/pair_contract_defaults.rs:9-82 | Which table, with which pairs, contracts and query formats, belongs to which network; every other name is unsupported. |
| Pricing.ConversionIsBuiltInPrice | src/sourced_coin.rs:34-95 | On every built-in table a coin is worth exactly what the exchange answers: USDC itself, the native denom offered for USDC, the exchange's own denom in itself; nothing else has a price. Failures are exact. |
| Pricing.DebtIsRepaidInAssetSpent | src/contract.rs:209-234 | On every built-in table a debt comes, in the asset being spent, to exactly the amount the exchange answers for it, and in USDC to the debt; failures are exact. |
| Pricing.PayableAssets | src/pair_contract_defaults.rs:9-82 | On a built-in table a debt can be paid in exactly USDC, and the native denom of the network while the exchange answers for it. |
| ExecuteProperties.RepaymentAsset | src/contract.rs:251-283 | On every built-in table a spend that clears a debt sends the repay wallet exactly the amount the exchange answers, in the first coin that can pay; if none can, it fails with the debt unpaid. |
| ExecuteProperties.DebtCoinIsFirst | src/contract.rs:251-283 | For any table, the repayment is the conversion of the first coin that converts, and there is none iff no coin does. |
| Pricing.TokensHaveNoPrice | src/pair_contract_defaults.rs:9-82 | On every built-in pair table, whatever is not one of the five named denoms converts to nothing and pays no debt. |
| Submsgs.PendingSubmsg.ProcessAndGetMsgType | src/submsgs.rs:50-74 | Whatever funds were pushed in before, a limited message ends with exactly the coins it gives up: a send's or a burn's own, or a CW20 call's attached funds and then its tokens. |
| Submsgs.PendingSubmsg.ProcessExecuteType | src/submsgs.rs:76-162 | A CW20 call pushes exactly the tokens it gives up, under the contract's address. |
| Submsgs.PendingSubmsg.ProcessBankType | src/submsgs.rs:164-183 | A bank message pushes exactly its own coins in order. |
| Submsgs.LimitedMeansSpending | src/submsgs.rs:50-183 | The limited messages are exactly the bank sends and burns and the CW20 calls Transfer, Burn, Send and IncreaseAllowance, each charged exactly the coins it gives up; unknown are exactly those that are neither bank messages nor decoded CW20 calls. |
| Proxies.Proxy.Transact | src/contract.rs:82-105 | Running the code over storage, with early writes and rollback, gives exactly the state and messages of the state machine. |
| Proxies.Proxy.ExecuteMsgs | src/contract.rs:108-166 | The execute path over storage refines the specification in state, messages and errors; after an error, storage is exactly what the messages before the failing one and its repayment left. |
| Proxies.Proxy.CheckEach | src/contract.rs:149-163 | The loop over a batch, message by message, with the inserted repayments, and exactly what it leaves in storage after an error. |
| Proxies.Proxy.CheckCoins | src/contract.rs:251-283 | The debt loop, the reload and the limit check together; a failed limit check leaves the debt cleared in storage, which the transaction boundary undoes. |
| Proxies.Proxy.TryRepayDebt | src/contract.rs:236-249 | Clears the stored debt and builds the message to the repay wallet, or changes nothing. |
| Proxies.Proxy.InstantiateContract | src/contract.rs:34-63 | Instantiation checks addresses, wallets and network in order, and saves before it checks the signers, which is what a bad signer leaves in storage. |
| Proxies.Proxy.CanSpend | src/contract.rs:443-516 | The query's code equals its specification, panics kept apart from refusals. |
| EntryPoints.InstantiateIsExact | src/contract.rs:34-63 | Instantiation succeeds iff addresses and signers are valid, every wallet has exactly one USD limit and the network is known; it stores the message's admin (also as pending), wallets, debt, repay wallet and network with that network's table. |
| ExecuteProperties.CheckBatchOutput | src/contract.rs:149-162 | The exact output of a checked batch: its messages in order, with one repayment just before the first spending one iff there was debt. |
| EntryPoints.ExecuteIsExact | src/contract.rs:82-166 | The execute transaction and its simulation: exactly when they succeed, the whole new state (debt, the sender's wallet) and the whole output, for every sender and batch. |
| EntryPoints.ExecuteRefusal | src/contract.rs:123-163 | A refused execute panics on an empty list and else has the error of its first refused message, in the state the earlier ones left. |
| EntryPoints.MessageRefusal | src/contract.rs:168-283 | Why a message is refused, in order: unknown type, no spend and no admin, unpayable debt, no wallet, or the wallet's own refusal. |
| EntryPoints.RolesAndPrices | src/state.rs:143-188 | Roles are the stored addresses, a wallet is the first with its address, and prices come from the stored pair table. |
| EntryPoints.ShortcutMeans | src/state.rs:65-75 | The shortcut is for calls without funds of exactly the two token contracts, by listed wallets. |
| EntryPoints.OneSpendIsExact | src/contract.rs:149-283 | On every built-in table a non-admin's bank send, bank burn or spending CW20 call succeeds iff a wallet is listed, a debt can be paid in its coins, a due refill can be computed, every coin has a built-in price, and the prices together fit in the limit. |
| EntryPoints.ChargesAreBuiltIn | src/hot_wallet.rs:70-91 | On every built-in table the charge for coins is the sum of the exchange's answers, each cast to u64. |
| ExecuteProperties.MessagesAreConserved | src/contract.rs:82-164 | What an execute transaction sends out, less the at most one inserted repayment, is its messages in order; the shortcut sends only the first message and changes nothing. |
| Sequences.BatchIsSequence | src/contract.rs:108-166 | Where no shortcut is involved, one batch equals its two parts in a row, in state, output and errors, iff not (the first part frees an admin of a debt, which its messages and prices decide beforehand, and the second holds a message of unknown type). |
| Sequences.ShortcutFirstNeverAgrees | src/contract.rs:124-140 | If the first part starts with a shortcut call, the batch sends that call alone and never equals the sequence. |
| Sequences.ShortcutSecondAgrees | src/contract.rs:124-163 | If only the second part does, on a built-in pair table, they agree iff the first part does not pass the check (`Passes`, a condition on the inputs), or frees an admin of a debt and the second part is known, or the second part is one decoded call that spends no tokens, from an admin. |
| Sequences.ShortcutIsForListedWallets | src/contract.rs:123-140 | Among checked senders, simulated or not, a funds-free token-contract call, whatever follows it, is sent on alone iff the sender is a listed hot wallet, or an admin's one unsimulated call is decoded and spends no tokens. |
| Acceptance.ExecutePasses | src/contract.rs:108-166 | For every sender, wallet, debt and price, an execute, simulated or not, succeeds iff the sender is an admin without debt, or the batch starts with a shortcut call, or it is nonempty and passes the check. |
| Acceptance.BatchPasses | src/contract.rs:149-201 | A nonempty batch passes the check iff its first spending message can pay a debt there is, and: for the admin, every type is known; for a listed wallet, every message spends and the limit allows them; for others, never. |
| Acceptance.BatchIsOneAccess | src/contract.rs:251-283 | A hot wallet's batch passes iff every message spends, the first can pay the debt, and all coins together fit in one access, which is also what the wallet is left as; where every check refills again (0 months), iff each message fits in the whole amount. |
| Acceptance.LimitAllowsInCharges | src/state.rs:165-188 | The limit allows a batch iff a due refill can be computed, every coin converts, and the charges, all together or per message, fit. |
| SpendProperties.AccessInParts | src/state.rs:177-187 | Two accesses at one block time are one access with the coins of both, errors included, unless every check refills again. |
| SpendProperties.AccessAgain | src/state.rs:177-187 | While every check refills again, an access changes nothing for the next one. |
| Acceptance.CanExecuteNeedsPayableDebt | src/contract.rs:393-434 | The query admits exactly the admin; what it admits succeeds iff there is no debt, it is a shortcut call, or its type is known and, if it spends, one of its coins can pay. |
| Witnesses.CanExecuteAdmitsDelegation | src/contract.rs:393-434 | With debt, the query admits an admin's delegation, which fails. |
| Acceptance.ContractCallsNeedShortcut | src/contract.rs:168-201 | On every built-in pair table a non-admin's batch that holds a contract call, to an address that is no denom, succeeds iff it starts with a shortcut call. |
| Witnesses.TransferOfNothingFails | src/contract.rs:168-201 | A hot wallet's transfer of 0 tokens of another contract fails. |
| Acceptance.AdminWithDebt | src/contract.rs:149-283 | An admin with debt passes the check iff every message type is known and the first spending message can pay the debt. |
| Witnesses.BatchDiffersFromSequence | src/contract.rs:117-163 | A send and a delegation by an admin with debt pass one after the other and fail as one batch. |
| Witnesses.DebtorAdminHasNoShortcut | src/contract.rs:123-140 | While there is debt, an undecodable token-contract call passes iff the sender is a listed hot wallet, admin or not. |
| Sequences.BankBatchIsSequence | src/contract.rs:108-166 | Lists of bank messages may always be split and joined, across refills and repayment. |
| ExecuteProperties.SendMatchesQuery | src/contract.rs:443-516 | A bank send by another than the admin succeeds iff the query says true, the debt can be paid, a due refill can be computed and the charges together fit. |
| ExecuteProperties.QueryIsExactForOneCoin | src/hot_wallet.rs:105-121 | With no debt and a computable refill, query and execution agree on at most one coin. |
| EntryPoints.CanSpendIsExact | src/contract.rs:443-516 | Every answer of the spend query: yes to the admin, errors on none, several or unsupported messages and on an invalid address, yes to a listed wallet's token-contract call, and per coin on sends and delegations; a wallet without a limit aborts it. |
| Witnesses.QueryCountsCoinsSeparately | src/hot_wallet.rs:105-121 | Two coins that each equal what is left are admitted by the query and refused by the execute. |
| ExecuteProperties.QueryAdmitsSendsAndShortcuts | src/contract.rs:455-510 | Of what a non-admin gets executed, the query admits exactly bank sends and valid shortcut calls. |
| ExecuteProperties.DelegationsAreNotExecuted | src/contract.rs:489-494 | The query treats a delegation like a send, but only an admin without debt can execute one. |
| Witnesses.DelegationIsAdmittedOnly | src/contract.rs:489-494 | A hot wallet's delegation of no USDC is admitted by the query and refused by the execute. |
| ExecuteProperties.AdminSendNeedsPayableDebt | src/contract.rs:450-454 | The query always admits the admin; the send fails iff a debt cannot be paid in its coins. |
| Frames.OutsidersAreRefused | src/contract.rs:82-105 | A sender that is not admin, pending or listed never changes state and never gets anything sent. |
| Frames.HotWalletsOnlySpend | src/contract.rs:251-328 | A sender that is not admin or pending can change only the debt, to 0, and its own wallet's remaining limit and reset time. |
| Frames.ExecuteOnlySpends | src/contract.rs:108-166 | Frame of every execute, simulated or not; for the admin no wallet changes at all. |
| EntryPoints.AddIsExact | src/contract.rs:285-306 | A wallet is added, at the end of the list, iff the sender is admin, no wallet has the address, and the address is valid; each refusal has its error. |
| EntryPoints.RemoveIsExact | src/contract.rs:308-328 | Wallets are removed iff the sender is admin and the address is listed; each refusal has its error. |
| EntryPoints.RemovedFromItsPlace | src/state.rs:127-130 | The removed wallet is taken out of its place in the list, and all others keep theirs. |
| WalletLists.AddedIsFound | src/contract.rs:285-306 | Addition changes the lookup of exactly the new address. |
| WalletLists.RemovedIsNotFound | src/contract.rs:308-328 | Removal changes the lookup of exactly the removed address. |
| WalletLists.RemoveUndoesAdd | src/state.rs:123-130 | Adding and removing a wallet gives back the state from before. |
| Runs.RunKeepsWalletList | src/state.rs:123-130 | Distinct addresses and limits within their amounts last through every run whose added wallets are within theirs. |
| Runs.RunKeepsTable | src/contract.rs:82-105 | Pair table, network and repay wallet never change. |
| Runs.DebtIsRepaidOnce | src/contract.rs:236-283 | In every run, simulations included, one repayment is sent in all iff the transaction that cleared the debt is an execute, and none otherwise. |
| Runs.DebtIsClearedOnce | src/contract.rs:236-283 | In every run the debt is the initial one until a transaction clears it, and 0 from then on. |
| Runs.RepaidWithoutSimulations | src/contract.rs:236-283 | Without simulations one repayment is sent iff the debt went from positive to 0. |
| Witnesses.SimulationClearsSilently | src/contract.rs:149-162 | An admin's simulated send of no USDC clears the debt and sends nothing. |
| Runs.StepRepayments | src/contract.rs:149-162 | One transaction sends a repayment iff it is an execute that clears the debt; a simulation clears it silently. |
| Runs.RepaymentPlace | src/contract.rs:149-162 | The repayment goes to the repay wallet, in the same step, immediately before the spending message, in a coin that message can pay with. |
| Runs.SimulationFollowsRun | src/contract.rs:107-166 | A run with every execute simulated passes through the same states and failures, and each transaction sends out exactly the one shortcut call or nothing. |
| Runs.SimulationStep | src/contract.rs:107-166 | A simulation succeeds with its execute, leaves the same state, and sends the first message iff the sender is checked and takes the shortcut, else nothing. |
| Witnesses.SimulatedShortcutIsSent | src/contract.rs:123-140 | A listed wallet's simulated token-contract call is sent out. |
| Runs.PendingWasProposed | src/contract.rs:330-391 | In every reachable state what is pending is the admin or was proposed by the address that has been admin since. |
| EntryPoints.ProposeIsExact | src/contract.rs:330-346 | A proposal succeeds iff from the admin and of a valid address, which becomes pending; nothing else changes. |
| EntryPoints.ConfirmIsExact | src/contract.rs:348-391 | A confirmation succeeds iff its signers are valid and the sender is pending; the sender is then admin, and nothing else changes; each refusal has its error. |
| Runs.AdminHandover | src/contract.rs:348-391 | In every run the admin changes iff the pending address, being another, confirms with valid signers; it becomes admin, and had been proposed by the predecessor while in office. |
| Runs.ProposeThenConfirm | src/contract.rs:330-391 | After a successful proposal, unless another proposal or a cancellation succeeds, the confirmation of exactly the proposed address succeeds, and makes it admin. |
| EntryPoints.CancelIsExact | src/contract.rs:364-391 | Cancelling succeeds iff the sender is the pending address, and makes the admin pending again. |
| Witnesses.AdminCannotCancel | src/contract.rs:372-391 | With another address pending, the admin's cancel is refused. |

## Left out

- JSON, base64 and schemas: a decoded CW20 call is a datatype with an undecodable case.
- The live exchange query and the parsing of its reply: an arbitrary function instead.
- Attributes, events, provenance strings, printed output and the texts of errors: reporting only.
- Migration and version comparison, and the rules of address validation.
- The internals of the date library, which are not part of this model; its dates are bounded by its last year.
- Loop-type prices as a meaningful conversion: kept as a result that may fail or be mislabelled (`ResponseAsset` says when).
- Conversion rates used only by unit tests.
- Queries that only read one field (admin, pending, wallet list).
- Runs.RunKeepsWalletList: asks that added wallets start within their limits, because neither instantiation nor addition checks it.
