# KucoCoin core in Dafny

This project models the arithmetic and ledger core of KucoCoin. KucoCoin is a token with a launch pool on a Uniswap V2 exchange. The model covers:

- **Reference calculations** (`calculations.dfy`, module `Calculations`). These are the bigint formulas the contract tests check the chain against: the ratio-preserving liquidity split, the constant-product swap quote with its 0.3% fee, the investment reward, the retract refund, the quadratic that inverts a claim, and the Newton integer square root behind it. That root is wrong for exactly one input, 4, which the inversion never passes it for non-negative reserves and ratio and a positive claim (`ClaimRootIsFloor`). JavaScript bigint semantics are explicit. Division truncates toward zero, a zero divisor throws `RangeError`, and `sqrt` of a negative value throws.
- **The KucoCoin ledger** (`kucocoin.dfy`, module `KucoCoinLedger`). This is a class whose methods change the reserves, the investments, the token balances, the pool shares and the period log, as the contract tests pin them down. The phase (uninitialized, investment, retract window, trading) is a pure function of the block time. Every method keeps the supply invariant: all KUCO minted is held by an account or by the pool.
- **The Uniswap V2 pair** (`pair.dfy`, module `UniswapPair`). This is a class with stored reserves, the amounts the pair actually holds, liquidity shares and the two tokens' outside balances. It has `addLiquidity`, `removeLiquidity`, `sync` and the test token faucet. The shares outstanding always add up to the total supply.
- **Shared ledger maps** (`balances.dfy`, module `Balances`). An absent account holds zero. Moves, credits and debits change the sum by exactly the amount.
- **`formatUnitsTruncate`** (`format.dfy`, module `FormatUnits`). It cuts a formatted decimal string down to a number of fractional digits, following JavaScript's `split` and `slice(0, end)`.
- **`rpcUrlFromConfig` and the `networkInfo` table** (`config.dfy`, module `Networks`).

Block time, the caller and the NAT attached to a call (`msg.value`) are parameters. NAT the contract pays out is returned as the method's result.

## Model

| member | source | states |
|---|---|---|
| Calculations.TruncDiv | packages/contracts/test/utils/calculations.ts:8-12 | bigint division: the quotient's magnitude is the floor of the magnitudes, and its sign is the product of the signs |
| Calculations.BigDiv | packages/contracts/test/utils/calculations.ts:25 | bigint `/`: throws `RangeError` exactly on a zero divisor, otherwise the truncating quotient |
| Calculations.OptimalAddedLiquidity | packages/contracts/test/utils/calculations.ts:2-15 | `optimalAddedLiquidity`: scales `addedB` to the reserve ratio and keeps it if it fits in `addedA`, otherwise scales `addedA`; each division throws on a zero divisor |
| Calculations.SwapOutput | packages/contracts/test/utils/calculations.ts:17-26 | `swapOutput`: the constant-product quote with the 997/1000 fee and truncating bigint division; throws `RangeError` exactly when the denominator `1000·rA + 997·a` is zero |
| Calculations.ApplyBips | packages/contracts/test/utils/calculations.ts:78-80 | `applyBips`: `value·ratio / 10000` with truncating division |
| Calculations.RewardKucoFromInvestedNat | packages/contracts/test/utils/calculations.ts:28-35 | `rewardKucoFromInvestedNat`: the bips-scaled `invested·rK`, divided by the NAT reserve |
| Calculations.RetractedNatFromInvestedNat | packages/contracts/test/utils/calculations.ts:37-42 | `retractedNatFromInvestedNat`: the investment scaled by `10000 − fee` basis points |
| Calculations.NewtonStep | packages/contracts/test/utils/calculations.ts:70 | one Newton step `((n / x0) + x0) >> 1` |
| Calculations.ClaimRadicand | packages/contracts/test/utils/calculations.ts:53-59 | the radicand `applyBips(rK·rN·rN·(applyBips(rK, bips) − 4·amount), bips)` |
| Calculations.InvestmentFromKucoClaim | packages/contracts/test/utils/calculations.ts:44-62 | `investmentFromKucoClaim`: `(b − a + sqrt(radicand)) / (2·amount)` with the as-written `sqrt`; throws when the radicand is negative or the claim is zero |
| Calculations.OptimalAddedLiquidityBounded | packages/contracts/test/utils/calculations.ts:2-15 | with a positive `reserveB` the split is defined, never exceeds either desired amount, and uses one of them in full |
| Calculations.OptimalAddedLiquidityRatio | packages/contracts/test/utils/calculations.ts:8-13 | the split keeps the reserve ratio up to one floor step of the scaled side, in either branch |
| Calculations.OptimalAddedLiquidityThrows | packages/contracts/test/utils/calculations.ts:8-12 | on non-negative inputs the split throws exactly when `reserveB` is zero |
| Calculations.SwapOutputClosedForm | packages/contracts/test/utils/calculations.ts:17-26 | the quote is `floor(997a·rB / (1000rA + 997a))` and lies between 0 and `rB` |
| Calculations.SwapOutputZero | packages/contracts/test/utils/calculations.ts:22-25 | selling nothing yields 0, or throws when both the input and `rA` are zero |
| Calculations.SwapOutputMonotone | packages/contracts/test/utils/calculations.ts:22-25 | the quote never falls as the input grows |
| Calculations.SwapOutputBelowReserve | packages/contracts/test/utils/calculations.ts:22-25 | the quote is strictly below the output reserve and below the spot price of the input |
| Calculations.SwapKeepsConstantProduct | packages/contracts/test/utils/calculations.ts:22-25 | after the swap the product of the reserves is at least what it was |
| Calculations.SwapOutputExample | packages/contracts/test/utils/calculations.ts:17-26 | `swapOutput(100, 100000000, 100)` is 49924887 |
| Calculations.RewardCollapses | packages/contracts/test/utils/calculations.ts:28-35 | the two nested floors collapse to one: the reward is `invested·rK·bips / (10000·rN)` |
| Calculations.RewardThrows | packages/contracts/test/utils/calculations.ts:34 | the reward throws exactly when the NAT reserve is zero |
| Calculations.RewardExample | packages/contracts/test/utils/calculations.ts:28-35 | 100 NAT invested at reserves (100000000, 100) with 11000 bips earns 110000000 KUCO |
| Calculations.ApplyBipsFull | packages/contracts/test/utils/calculations.ts:78-80 | 10000 basis points is the identity |
| Calculations.ApplyBipsMonotone | packages/contracts/test/utils/calculations.ts:78-80 | scaling by a non-negative ratio is monotone in the value |
| Calculations.RetractedBounded | packages/contracts/test/utils/calculations.ts:37-42 | with a fee in [0, 10000] the refund is between 0 and the investment, and equals the investment with no fee |
| Calculations.NewtonStop | packages/contracts/test/utils/calculations.ts:70-72 | when the iteration exits, its value does not overshoot the root |
| Calculations.NewtonProgress | packages/contracts/test/utils/calculations.ts:70-73 | when the iteration goes on, the next iterate stays in range, is at least the floor root, and the termination measure drops |
| Calculations.NewtonIteration | packages/contracts/test/utils/calculations.ts:69-74 | the result is positive and its square is at most `n`; it is the floor root when started at or above the floor root |
| Calculations.Sqrt | packages/contracts/test/utils/calculations.ts:66-76 | throws exactly on negative input; otherwise the result is non-negative with square at most the input |
| Calculations.SqrtFloorExceptFour | packages/contracts/test/utils/calculations.ts:66-76 | for every non-negative input except 4 the result is the floor square root |
| Calculations.SqrtOfFourIsOne | packages/contracts/test/utils/calculations.ts:70-72 | `sqrt(4)` is 1, which is not the floor root of 4 |
| Calculations.FloorSqrt | packages/contracts/test/utils/calculations.ts:66-76 | the corrected root: throws exactly on negative input and is otherwise the floor square root |
| Calculations.InvestmentFromKucoClaimThrows | packages/contracts/test/utils/calculations.ts:44-62 | the inversion throws exactly when the radicand is negative (a `sqrt` error) or the claimed amount is zero (a division by zero) |
| Calculations.InvestmentFromKucoClaimDefined | packages/contracts/test/utils/calculations.ts:50-61 | with a positive claim no larger than a quarter of the scaled KUCO reserve the inversion is defined |
| Calculations.ClaimRadicandAvoidsFour | packages/contracts/test/utils/calculations.ts:52-59 | for non-negative reserves and ratio and a positive claim, the radicand is at most 0 or at least 5 |
| Calculations.ClaimRootIsFloor | packages/contracts/test/utils/calculations.ts:52-60 | in that range the as-written `sqrt` the inversion calls returns exactly the corrected floor root |
| Calculations.InvestmentFromKucoClaimNonNegative | packages/contracts/test/utils/calculations.ts:50-61 | a positive claim of at most a quarter of the scaled KUCO reserve gives a defined, non-negative investment |
| Balances.Move | packages/contracts/test/kucocoin.test.ts:123-127 | a move takes exactly the amount from the sender, gives it to the receiver, and leaves every other account alone |
| Balances.MovePreservesSum | packages/contracts/test/kucocoin.test.ts:123-127 | a move leaves the total unchanged |
| Balances.Credit | packages/contracts/test/kucocoin.test.ts:164-169 | a credit raises one account by exactly the amount and no other |
| Balances.CreditSum | packages/contracts/test/kucocoin.test.ts:164-169 | a credit raises the total by exactly the amount |
| Balances.Debit | packages/contracts/test/kucocoin.test.ts:282 | a debit lowers one account by exactly the amount and no other |
| Balances.DebitSum | packages/contracts/test/kucocoin.test.ts:282 | a debit lowers the total by exactly the amount |
| Balances.GetAtMostSum | packages/contracts/test/uniswap-v2.test.ts:78-80 | no account holds more than the total |
| KucoCoinLedger.PhaseAt | packages/contracts/test/kucocoin.test.ts:77-81 | the phase at a block time: uninitialized, investment before `tradingPhaseStart`, retract window up to `tradingPhaseStart + retractDuration`, trading after |
| KucoCoinLedger.KucoCoin.BalanceOf | packages/contracts/test/kucocoin.test.ts:123-127 | `balanceOf(a)`: the KUCO `a` holds, zero for an unknown account |
| KucoCoinLedger.KucoCoin.LiquidityOf | packages/contracts/test/kucocoin.test.ts:331 | `liquidityOf(a)`: the pool shares `a` holds, zero for an unknown account |
| KucoCoinLedger.KucoCoin.InvestedNatOf | packages/contracts/test/kucocoin.test.ts:160-161 | `getInvestedNatOf(a)`: the NAT `a` has invested and not yet claimed or retracted |
| KucoCoinLedger.KucoCoin.PeriodHistory | packages/contracts/test/kucocoin.test.ts:397 | `getPeriodHistory()`: the caller's reported times, empty for an account that never reported |
| KucoCoinLedger.PhaseMonotone | packages/contracts/test/kucocoin.test.ts:77-81 | once initialized, time only moves the phase forward |
| KucoCoinLedger.TradingOpensAtStart | packages/contracts/test/kucocoin.test.ts:77-81 | claims, buys and sells are open exactly from `tradingPhaseStart` on; the retract window is `[tradingPhaseStart, tradingPhaseStart + retractDuration)` |
| KucoCoinLedger.KucoCoin.constructor | packages/contracts/test/kucocoin.test.ts:52-62 | deployment stores the parameters, starts trading `investmentDuration` after deployment, and starts with empty books |
| KucoCoinLedger.KucoCoin.Initialize | packages/contracts/test/kucocoin.test.ts:64-76 | the first call sets the reserves to the KUCO and NAT supplied and mints the pool's first shares; a second call reverts and changes nothing |
| KucoCoinLedger.KucoCoin.Invest | packages/contracts/test/kucocoin.test.ts:133-161 | outside the investment phase it reverts with "not inside investment phase"; inside it, the NAT reserve rises by exactly the value paid, the KUCO reserve stays, and the investor's record rises by the value |
| KucoCoinLedger.KucoCoin.Claim | packages/contracts/test/kucocoin.test.ts:162-178 | from `tradingPhaseStart` on, the receiver is credited exactly the reference reward at the current reserves and the investment is forgotten; with nothing invested it reverts with "no investment to claim" |
| KucoCoinLedger.KucoCoin.Retract | packages/contracts/test/kucocoin.test.ts:181-208 | inside the retract window the receiver is paid exactly the reference refund, the NAT reserve falls by that amount, the KUCO reserve stays, and the investment is forgotten |
| KucoCoinLedger.KucoCoin.Buy | packages/contracts/test/kucocoin.test.ts:225-254 | from `tradingPhaseStart` on, the receiver gets exactly the reference quote in KUCO, the reserves move by the input and the output, and no other balance changes; it succeeds exactly when the input, both reserves and the quote are positive and the quote meets `minOut` |
| KucoCoinLedger.KucoCoin.Sell | packages/contracts/test/kucocoin.test.ts:256-287 | from `tradingPhaseStart` on, the seller is debited exactly the input and the receiver is paid exactly the reference quote in NAT; it succeeds exactly when the phase and the balance allow, the input and both reserves are positive, and the quote is positive and meets `minOut` |
| KucoCoinLedger.KucoCoin.LiquidityPlan | packages/contracts/test/kucocoin.test.ts:289-333 | a deposit uses the reference split of the offered KUCO and NAT, within the slippage bounds and the provider's balance, and mints exactly the smaller of the two proportional share claims, a positive number that does not dilute earlier holders |
| KucoCoinLedger.KucoCoin.AddLiquidity | packages/contracts/test/kucocoin.test.ts:289-333 | performs the planned deposit: the reserves rise by the amounts used, the provider is debited the KUCO used, the receiver's KUCO is unchanged and it holds pool shares |
| KucoCoinLedger.KucoCoin.Transfer | packages/contracts/test/kucocoin.test.ts:115-128 | moves exactly `amount` from the sender to the receiver and changes nothing else, or reverts when the sender holds less |
| KucoCoinLedger.KucoCoin.MakeTransAction | packages/contracts/test/kucocoin.test.ts:403-416 | behaves exactly as `transfer` |
| KucoCoinLedger.KucoCoin.ReportPeriod | packages/contracts/test/kucocoin.test.ts:389-401 | needs no `initialize`; appends the block time to the caller's history and to no one else's |
| UniswapPair.DepositAmounts | packages/contracts/test/uniswap-v2.test.ts:60-65 | the amounts a deposit uses: everything offered into an empty pool, otherwise `optimalAddedLiquidity` |
| UniswapPair.ProportionalMint | packages/contracts/test/uniswap-v2.test.ts:60-61 | shares minted into a funded pool: the smaller of `amountA·total/rA` and `amountB·total/rB` |
| UniswapPair.BurnShare | packages/contracts/test/uniswap-v2.test.ts:80-82 | the amount of one token paid for burning `L` of `total` shares: `L·held/total` |
| UniswapPair.DepositAmountsBounded | packages/contracts/test/uniswap-v2.test.ts:53-68 | an empty pool takes the whole deposit; a funded pool takes the reference split, never more than offered, with one side in full |
| UniswapPair.ProportionalMintFair | packages/contracts/test/uniswap-v2.test.ts:60-61 | shares minted into a funded pool never dilute existing holders on either token |
| UniswapPair.BurnShareBounded | packages/contracts/test/uniswap-v2.test.ts:79-81 | a burn of at most the total supply never pays more than the pair holds, and burning everything pays out everything |
| UniswapPair.Pair.constructor | packages/contracts/test/uniswap-v2.test.ts:43-51 | a new pair is empty, synced, and has no shares or balances |
| UniswapPair.Pair.MintTokens | packages/contracts/test/uniswap-v2.test.ts:30-31 | credits exactly the minted amounts to the account and touches nothing else |
| UniswapPair.Pair.BurnHeld | packages/contracts/test/uniswap-v2.test.ts:123-124 | removes tokens from what the pair holds without touching its reserves |
| UniswapPair.Pair.Sync | packages/contracts/test/uniswap-v2.test.ts:116-129 | sets each reserve to the amount the pair holds and changes nothing else |
| UniswapPair.Pair.DepositPlan | packages/contracts/test/uniswap-v2.test.ts:53-68 | a deposit uses the reference amounts within the slippage bounds and the provider's balance; the first mint uses the pool's rule; later mints are exactly the smaller of the two proportional claims, positive, and never dilute |
| UniswapPair.Pair.AddLiquidity | packages/contracts/test/uniswap-v2.test.ts:53-68 | performs the planned deposit: the provider is debited, the pair's holdings rise by exactly the amounts used and then become the reserves (as `_update` copies the balances), and the receiver is credited the shares |
| UniswapPair.Pair.WithdrawalPlan | packages/contracts/test/uniswap-v2.test.ts:79-89 | burning `L` of `total` shares pays `L·held/total` of each token, never more than held and never zero; it reverts when the provider holds fewer shares or either payout would be zero |
| UniswapPair.Pair.RemoveLiquidity | packages/contracts/test/uniswap-v2.test.ts:70-95 | performs the planned burn: the pair's holdings fall by exactly the amounts paid and then become the reserves (as `_update` copies the balances), and the amounts land exactly in the receiver's balances |
| FormatUnits.IndexOf | packages/frontend/src/ts/utils.ts:29 | the position of the first separator, or the length when there is none |
| FormatUnits.Separator | packages/frontend/src/ts/utils.ts:27 | the separator is ',' exactly when the string contains a comma, and '.' otherwise |
| FormatUnits.SlicePrefix | packages/frontend/src/ts/utils.ts:30 | `slice(0, end)` is a prefix: the first `end` characters, the whole string for an end past it, and the string less its last `-end` characters (or nothing) for a negative end |
| FormatUnits.FormatUnitsTruncate | packages/frontend/src/ts/utils.ts:25-33 | `formatUnitsTruncate` after `formatUnits`: picks the separator, returns the input without one, otherwise the whole part, followed by the separator and the sliced fraction unless that reads as zero |
| FormatUnits.Whole | packages/frontend/src/ts/utils.ts:29 | the first piece of `split(sep)`: everything before the first separator |
| FormatUnits.Fraction | packages/frontend/src/ts/utils.ts:29 | the second piece of `split(sep)`: from the first separator up to the next one |
| FormatUnits.ReadsAsZero | packages/frontend/src/ts/utils.ts:31 | `Number(digits) == 0` for a digit string: empty or all zeros |
| FormatUnits.NoSeparatorUnchanged | packages/frontend/src/ts/utils.ts:27-28 | a string with no separator comes back unchanged |
| FormatUnits.ResultIsPrefix | packages/frontend/src/ts/utils.ts:29-32 | the result is always a prefix of the formatted string |
| FormatUnits.FractionTruncated | packages/frontend/src/ts/utils.ts:30-32 | the fraction kept has at most `showDecimals` digits; the result is the whole part alone exactly when that fraction reads as zero, and otherwise whole, separator and fraction |
| FormatUnits.TruncateIdempotent | packages/frontend/src/ts/utils.ts:25-33 | with one kind of separator and a non-negative decimal count, truncating a second time changes nothing |
| FormatUnits.ExampleCut | packages/frontend/src/ts/utils.ts:25-33 | "1234.5678" to 2 places is "1234.56" |
| FormatUnits.ExampleZeroDropped | packages/frontend/src/ts/utils.ts:31 | "1.000123" to 3 places is "1" |
| FormatUnits.ExampleComma | packages/frontend/src/ts/utils.ts:27 | "12,50" to 1 place is "12,5" |
| FormatUnits.ExampleNegativeCount | packages/frontend/src/ts/utils.ts:30 | "1.2345" to -1 places is "1.234" |
| Networks.DecimalDigits | src/config.ts:43 | a port renders as a non-empty string of decimal digits |
| Networks.DecimalDigitsRoundTrip | src/config.ts:43 | a rendered port reads back as the same number, and only zero renders with a leading zero |
| Networks.PortIsSet | src/config.ts:43 | JavaScript truthiness of the port: present and not zero |
| Networks.PortText | src/config.ts:43 | `${port}`: the decimal numeral, with a minus sign when negative |
| Networks.HostSegment | src/config.ts:43 | `ip:port` when the port is set, the bare `ip` otherwise |
| Networks.RpcUrlFromConfig | src/config.ts:40-46 | `rpcUrlFromConfig`: `protocol://`, the host segment, then `/ext/bc/C/rpc` |
| Networks.RpcUrlShape | src/config.ts:40-46 | every RPC URL starts with the protocol and "://" and ends with "/ext/bc/C/rpc" |
| Networks.RpcUrlWithoutPort | src/config.ts:43 | an absent port and port 0 are both falsy, so the URL has no ":port" segment |
| Networks.RpcUrlPortReadsBack | src/config.ts:43-45 | with a positive port, the port reads back from the URL between the ':' and the path |
| Networks.NetworkInfoOf | src/config.ts:48-66 | the table lists exactly costwo, flare and flarefork, and each entry's RPC URL is built from its own settings |
| Networks.FlareforkRpcUrl | src/config.ts:17-24 | the fork's URL is "http://localhost:8545/ext/bc/C/rpc" |
| Networks.CostwoRpcUrl | src/config.ts:26-31 | the Coston2 URL is "https://coston2-api.flare.network/ext/bc/C/rpc" |
| Networks.FlareRpcUrl | src/config.ts:33-38 | the Flare URL is "https://flare-api.flare.network/ext/bc/C/rpc" |
| Networks.ForkSharesFlareContracts | src/config.ts:55-66 | the fork uses the main network's wrapped-native and exchange contracts but a different RPC URL |

## Left out

- Gas, and the native NAT balances of accounts. NAT paid out is returned as a method result; the approximate gas bounds in the tests are not modelled.
- The ±1 tolerances on the reserves and balances after `addLiquidity` in the KucoCoin test. The model states the exact amounts of the reference split.
- The Uniswap router computes its split in the other order: it quotes B from A first. On floor edge cases that can differ from the reference `optimalAddedLiquidity`. Both pair and ledger deposits use the reference split the tests compare against.
- `UniswapPair.Pair.DepositPlan`: the first mint (`sqrt(a·b) − MINIMUM_LIQUIDITY` in Uniswap V2, with 1000 shares locked at address zero) is the parameter `firstMint`. The permanent lock of the minimum liquidity is not modelled.
- `KucoCoinLedger.KucoCoin.Initialize`: the pool's first shares also come from `firstMint`. They are held by no account in the `liquidity` map, so the invariant is `Sum(liquidity) <= liquiditySupply`.
- `KucoCoinLedger.KucoCoin.AddLiquidity`: no phase gate is modelled, because no shown code restricts it. A pool without reserves reverts. The NAT not used (`value − usedNat`) is not tracked, since account NAT balances are not modelled.
- `KucoCoinLedger.KucoCoin.Sell`: selling is allowed in the retract window. The only test asserting otherwise is skipped (`kucocoin.test.ts:361-383`).
- `KucoCoinLedger.KucoCoin.constructor`: `tradingPhaseStart` is the deployment time plus `investmentDuration`, and the fee is required to be at most 10000 basis points. The contract source is not part of this model, and the tests only read `tradingPhaseStart` back.
- `KucoCoinLedger.KucoCoin.Invest`: `invest(receiver)` records the investment under `receiver`, which is the sender in every test.
- Deadlines (`ethers.MaxUint256` in every call), the ERC20 metadata (`name`, `symbol`, `decimals`), approvals, and the getter `getPoolReserves`. The getter is the pair of fields `reserveKuco`/`reserveNat`.
- The `getReserves` ordering helper and the unused `mulBips` helper of the KucoCoin test.
- `FormatUnits.FormatUnitsTruncate`: `Number(fraction) == 0` is modelled for digit strings (empty or all zeros). What `Number` does with whitespace, signs or exponents is not modelled, because `formatUnits` output has none. `formatUnits` itself is not part of this model. `showDecimals` is an integer here: a fractional, NaN or infinite count, which `slice` would also accept, is not modelled, because every caller passes an integer constant (packages/frontend/src/ts/site.ts:255-256).
- Fixed-width integers. On chain, amounts are `uint256` and Uniswap V2 reserves `uint112`, whose `_update` reverts above that width. The ledger and pair models use unbounded `nat`, so they do not revert on overflow.
- `Calculations.ApplyBips`: the basis points are a TypeScript `number`, and `BigInt(ratio)` throws `RangeError` on a fractional ratio. The model takes an integer ratio, so that error is not modelled. This also affects the reward, refund and claim-inversion functions that call it.
- `KucoCoinLedger.KucoCoin.Initialize`: zero KUCO or zero NAT is accepted, since the contract source is not part of this model. Every later swap against an empty reserve reverts.
- `Networks.PortText`: ports are integers. A fractional or NaN port is not modelled, nor the exponent notation `${port}` switches to at 1e21 and above.
- The weekday trading gate, the feature fee on `reportPeriod` and `makeTransAction`, and the checks-effects-interactions ordering of the contract. The contract source is not part of this model, and no test exercises them.
- Timers, DOM and wallet code of the frontend, deployment tooling, and the older BlazeSwap-era tests are not part of this model.

## Findings

| source | as written | input that shows it | evidently intended | confidence | as-written member | corrected member |
|---|---|---|---|---|---|---|
| packages/contracts/test/utils/calculations.ts:66-76 | `sqrt` starts Newton's iteration at 1 and stops when the next iterate is one more than the current one | `sqrt(4)`: the first step gives x1 = 2 = x0 + 1, so it returns 1 | the floor square root, 2 | not executed | Calculations.SqrtOfFourIsOne | Calculations.FloorSqrt |
