/**
 * The KucoCoin ledger as its contract tests pin it down
 * (packages/contracts/test/kucocoin.test.ts): a token whose launch pool is
 * seeded once by `initialize`, an investment phase that adds NAT to the pool,
 * a claim of KUCO priced at the reserves of the moment (or a retract of the
 * NAT, for a fee, inside the retract window), constant-product buys and
 * sells against the pool, plain and "trans action" transfers, and a
 * per-account period log.
 *
 * The caller, the attached NAT (`msg.value`) and the block time are explicit
 * parameters (`sender`, `value`, `now`). NAT sent out of the contract is
 * returned to the caller of the method as the amount paid to `receiver`.
 */
module KucoCoinLedger {
  import opened Balances
  import C = Calculations
  import P = UniswapPair

  /** The phase, derived from the clock on every call and never stored. */
  datatype Phase = Uninitialized | InvestmentPhase | RetractPhase | TradingPhase

  function PhaseAt(initialized: bool, tradingPhaseStart: nat, retractDuration: nat, now: nat): Phase
  {
    if !initialized then Uninitialized
    else if now < tradingPhaseStart then InvestmentPhase
    else if now < tradingPhaseStart + retractDuration then RetractPhase
    else TradingPhase
  }

  function Rank(p: Phase): nat
  {
    match p
    case Uninitialized => 0
    case InvestmentPhase => 1
    case RetractPhase => 2
    case TradingPhase => 3
  }

  /** Once initialized, time only moves the phase forward. */
  lemma PhaseMonotone(tradingPhaseStart: nat, retractDuration: nat, now1: nat, now2: nat)
    requires now1 <= now2
    ensures Rank(PhaseAt(true, tradingPhaseStart, retractDuration, now1))
         <= Rank(PhaseAt(true, tradingPhaseStart, retractDuration, now2))
  {
  }

  /** Claims, buys and sells open at `tradingPhaseStart`, retract window included. */
  lemma TradingOpensAtStart(initialized: bool, tradingPhaseStart: nat, retractDuration: nat, now: nat)
    ensures PhaseAt(initialized, tradingPhaseStart, retractDuration, now) in {RetractPhase, TradingPhase}
        <==> initialized && tradingPhaseStart <= now
    ensures PhaseAt(initialized, tradingPhaseStart, retractDuration, now) == RetractPhase
        <==> initialized && tradingPhaseStart <= now < tradingPhaseStart + retractDuration
  {
  }

  /**
   * Why a call reverted. The ledger keeps its own reasons, apart from the
   * pair's: they are the KucoCoin contract's (phases, investments), while
   * the pair's are the Uniswap router's (per-token slippage, shares).
   */
  datatype Reason =
    | NotInvestmentPhase     // "KucoCoin: not inside investment phase"
    | NotTradingPhase
    | NotRetractPhase
    | NoInvestmentToClaim    // "KucoCoin: no investment to claim"
    | NoInvestmentToRetract
    | AlreadyInitialized
    | InsufficientBalance
    | InsufficientInput      // a swap of nothing
    | InsufficientOutput     // the swap pays nothing, or less than the slippage bound `minOut`
    | InsufficientLiquidity  // the pool cannot quote or pay the amount

  /** A call either completes with a value or reverts with every field untouched. */
  datatype Outcome<T> = Done(value: T) | Revert(reason: Reason)

  /**
   * What a liquidity deposit took from the provider and minted to the
   * receiver, named by the pool's two sides, KUCO and NAT, rather than the
   * pair's positional A and B.
   */
  datatype AddedLiquidity = AddedLiquidity(usedKuco: nat, usedNat: nat, minted: nat)

  class KucoCoin {
    const investmentReturnBips: nat
    const retractFeeBips: nat
    const tradingPhaseStart: nat
    const retractDuration: nat
    /** Shares the pool mints for its first deposit, from the KUCO and NAT deposited. */
    const firstMint: (nat, nat) -> nat

    var initialized: bool
    var reserveKuco: nat
    var reserveNat: nat
    var investedNat: map<Addr, nat>
    var balances: map<Addr, nat>
    var periodHistory: map<Addr, seq<nat>>
    var totalSupply: nat
    var liquidity: map<Addr, nat>
    var liquiditySupply: nat

    /** Every KUCO ever minted is held by an account or by the pool. */
    ghost predicate Valid()
      reads this
    {
      && retractFeeBips <= 10000
      && totalSupply == Sum(balances) + reserveKuco
      && (!initialized ==> reserveKuco == 0 && reserveNat == 0 && investedNat == map[])
      && Sum(liquidity) <= liquiditySupply
    }

    function PhaseAtTime(now: nat): Phase
      reads this
    {
      PhaseAt(initialized, tradingPhaseStart, retractDuration, now)
    }

    function BalanceOf(a: Addr): nat
      reads this
    {
      Get(balances, a)
    }

    /** `liquidityOf(a)`: the pool shares `a` holds. */
    function LiquidityOf(a: Addr): nat
      reads this
    {
      Get(liquidity, a)
    }

    function InvestedNatOf(a: Addr): nat
      reads this
    {
      Get(investedNat, a)
    }

    /** `getPeriodHistory` for `a`. */
    function PeriodHistory(a: Addr): seq<nat>
      reads this
    {
      if a in periodHistory then periodHistory[a] else []
    }

    /** Deployment at time `now`: trading starts `investmentDuration` later. */
    constructor (investmentReturnBips: nat, investmentDuration: nat, retractFeeBips: nat, retractDuration: nat,
                 firstMint: (nat, nat) -> nat, now: nat)
      requires retractFeeBips <= 10000
      ensures Valid()
      ensures this.firstMint == firstMint && liquidity == map[] && liquiditySupply == 0
      ensures this.investmentReturnBips == investmentReturnBips && this.retractFeeBips == retractFeeBips
      ensures tradingPhaseStart == now + investmentDuration && this.retractDuration == retractDuration
      ensures !initialized && reserveKuco == 0 && reserveNat == 0
      ensures investedNat == map[] && balances == map[] && periodHistory == map[] && totalSupply == 0
    {
      this.investmentReturnBips := investmentReturnBips;
      this.retractFeeBips := retractFeeBips;
      this.tradingPhaseStart := now + investmentDuration;
      this.retractDuration := retractDuration;
      this.firstMint := firstMint;
      liquidity, liquiditySupply := map[], 0;
      initialized := false;
      reserveKuco, reserveNat := 0, 0;
      investedNat, balances, periodHistory := map[], map[], map[];
      totalSupply := 0;
      new;
      assert Sum(balances) == 0 && Sum(liquidity) == 0;
    }

    /** `initialize(liquidityKuco)` with `value` NAT: seeds the pool exactly once. */
    method Initialize(liquidityKuco: nat, value: nat) returns (r: Outcome<()>)
      requires Valid()
      modifies this
      ensures Valid()
      ensures r == if old(initialized) then Revert(AlreadyInitialized) else Done(())
      ensures r.Revert? ==> unchanged(this)
      ensures r.Done? ==> initialized && reserveKuco == liquidityKuco && reserveNat == value
      ensures r.Done? ==> totalSupply == old(totalSupply) + liquidityKuco
      ensures r.Done? ==> investedNat == old(investedNat) && balances == old(balances) && periodHistory == old(periodHistory)
      ensures r.Done? ==> liquidity == old(liquidity) && liquiditySupply == old(liquiditySupply) + firstMint(liquidityKuco, value)
    {
      if initialized {
        return Revert(AlreadyInitialized);
      }
      initialized := true;
      liquiditySupply := liquiditySupply + firstMint(liquidityKuco, value);
      reserveKuco, reserveNat := liquidityKuco, value;
      totalSupply := totalSupply + liquidityKuco;
      r := Done(());
    }

    /** `invest(receiver)` with `value` NAT: only in the investment phase; the NAT joins the pool. */
    method Invest(receiver: Addr, value: nat, now: nat) returns (r: Outcome<()>)
      requires Valid()
      modifies this
      ensures Valid()
      ensures r == if old(PhaseAtTime(now)) == InvestmentPhase then Done(()) else Revert(NotInvestmentPhase)
      ensures r.Revert? ==> unchanged(this)
      ensures r.Done? ==> reserveNat == old(reserveNat) + value && reserveKuco == old(reserveKuco)
      ensures r.Done? ==> investedNat == Credit(old(investedNat), receiver, value)
      ensures r.Done? ==> balances == old(balances) && periodHistory == old(periodHistory)
      ensures r.Done? ==> totalSupply == old(totalSupply) && initialized == old(initialized)
      ensures r.Done? ==> liquidity == old(liquidity) && liquiditySupply == old(liquiditySupply)
    {
      if PhaseAtTime(now) != InvestmentPhase {
        return Revert(NotInvestmentPhase);
      }
      investedNat := Credit(investedNat, receiver, value);
      reserveNat := reserveNat + value;
      r := Done(());
    }

    /**
     * `claim(receiver)`: from `tradingPhaseStart` on, mints to `receiver` the
     * reward for the sender's whole investment, priced at the current
     * reserves, and forgets the investment.
     */
    method Claim(sender: Addr, receiver: Addr, now: nat) returns (r: Outcome<nat>)
      requires Valid()
      modifies this
      ensures Valid()
      ensures old(PhaseAtTime(now)) !in {RetractPhase, TradingPhase} ==> r == Revert(NotTradingPhase)
      ensures old(PhaseAtTime(now)) in {RetractPhase, TradingPhase} && old(InvestedNatOf(sender)) == 0 ==> r == Revert(NoInvestmentToClaim)
      ensures r.Revert? <==> old(PhaseAtTime(now)) !in {RetractPhase, TradingPhase} || old(InvestedNatOf(sender)) == 0 || old(reserveNat) == 0
      ensures r.Revert? ==> unchanged(this)
      ensures r.Done? ==> C.RewardKucoFromInvestedNat(old(InvestedNatOf(sender)), old(reserveKuco), old(reserveNat), investmentReturnBips)
                          == C.Ok(r.value as int)
      ensures r.Done? ==> investedNat == old(investedNat)[sender := 0] && InvestedNatOf(sender) == 0
      ensures r.Done? ==> balances == Credit(old(balances), receiver, r.value) && totalSupply == old(totalSupply) + r.value
      ensures r.Done? ==> reserveKuco == old(reserveKuco) && reserveNat == old(reserveNat)
      ensures r.Done? ==> periodHistory == old(periodHistory) && initialized == old(initialized)
      ensures r.Done? ==> liquidity == old(liquidity) && liquiditySupply == old(liquiditySupply)
    {
      if PhaseAtTime(now) !in {RetractPhase, TradingPhase} {
        return Revert(NotTradingPhase);
      }
      var invested := InvestedNatOf(sender);
      if invested == 0 {
        return Revert(NoInvestmentToClaim);
      }
      if reserveNat == 0 {
        return Revert(InsufficientLiquidity);
      }
      C.RewardCollapses(invested, reserveKuco, reserveNat, investmentReturnBips);
      var reward: nat := C.RewardKucoFromInvestedNat(invested, reserveKuco, reserveNat, investmentReturnBips).value;
      investedNat := investedNat[sender := 0];
      CreditSum(balances, receiver, reward);
      balances := Credit(balances, receiver, reward);
      totalSupply := totalSupply + reward;
      r := Done(reward);
    }

    /**
     * `retract(receiver)`: inside the retract window, refunds the sender's
     * investment less the retract fee to `receiver`, out of the NAT reserve
     * only, and forgets the investment.
     */
    method Retract(sender: Addr, receiver: Addr, now: nat) returns (r: Outcome<nat>)
      requires Valid()
      modifies this
      ensures Valid()
      ensures old(PhaseAtTime(now)) != RetractPhase ==> r == Revert(NotRetractPhase)
      ensures old(PhaseAtTime(now)) == RetractPhase && old(InvestedNatOf(sender)) == 0 ==> r == Revert(NoInvestmentToRetract)
      ensures r.Revert? <==> (old(PhaseAtTime(now)) != RetractPhase || old(InvestedNatOf(sender)) == 0
                              || C.RetractedNatFromInvestedNat(old(InvestedNatOf(sender)), retractFeeBips) > old(reserveNat))
      ensures r.Revert? ==> unchanged(this)
      ensures r.Done? ==> r.value as int == C.RetractedNatFromInvestedNat(old(InvestedNatOf(sender)), retractFeeBips)
      ensures r.Done? ==> r.value <= old(InvestedNatOf(sender))
      ensures r.Done? ==> reserveNat == old(reserveNat) - r.value && reserveKuco == old(reserveKuco)
      ensures r.Done? ==> investedNat == old(investedNat)[sender := 0] && InvestedNatOf(sender) == 0
      ensures r.Done? ==> balances == old(balances) && totalSupply == old(totalSupply)
      ensures r.Done? ==> periodHistory == old(periodHistory) && initialized == old(initialized)
      ensures r.Done? ==> liquidity == old(liquidity) && liquiditySupply == old(liquiditySupply)
    {
      if PhaseAtTime(now) != RetractPhase {
        return Revert(NotRetractPhase);
      }
      var invested := InvestedNatOf(sender);
      if invested == 0 {
        return Revert(NoInvestmentToRetract);
      }
      C.RetractedBounded(invested, retractFeeBips);
      var refund: nat := C.RetractedNatFromInvestedNat(invested, retractFeeBips);
      if refund > reserveNat {
        return Revert(InsufficientLiquidity);
      }
      investedNat := investedNat[sender := 0];
      reserveNat := reserveNat - refund;
      r := Done(refund);
    }

    /**
     * `buy(minOut, receiver)` with `value` NAT: swaps NAT for KUCO credited to
     * `receiver`. As in a Uniswap V2 swap, it reverts on a zero input, on an
     * empty reserve, and on a zero output.
     */
    method Buy(receiver: Addr, value: nat, minOut: nat, now: nat) returns (r: Outcome<nat>)
      requires Valid()
      modifies this
      ensures Valid()
      ensures old(PhaseAtTime(now)) !in {RetractPhase, TradingPhase} ==> r == Revert(NotTradingPhase)
      ensures old(PhaseAtTime(now)) in {RetractPhase, TradingPhase} && value == 0 ==> r == Revert(InsufficientInput)
      ensures (old(PhaseAtTime(now)) in {RetractPhase, TradingPhase} && 0 < value
               && (old(reserveNat) == 0 || old(reserveKuco) == 0)) ==> r == Revert(InsufficientLiquidity)
      ensures r.Revert? ==> unchanged(this)
      ensures r.Done? ==> C.SwapOutput(old(reserveNat), old(reserveKuco), value) == C.Ok(r.value as int)
      ensures r.Done? ==> 0 < r.value && minOut <= r.value
      ensures r.Done? <==> old(PhaseAtTime(now)) in {RetractPhase, TradingPhase}
                           && 0 < value && 0 < old(reserveNat) && 0 < old(reserveKuco)
                           && C.SwapOutput(old(reserveNat), old(reserveKuco), value).Ok?
                           && 0 < C.SwapOutput(old(reserveNat), old(reserveKuco), value).value
                           && minOut <= C.SwapOutput(old(reserveNat), old(reserveKuco), value).value
      ensures r.Done? ==> reserveNat == old(reserveNat) + value && reserveKuco == old(reserveKuco) - r.value
      ensures r.Done? ==> balances == Credit(old(balances), receiver, r.value)
      ensures r.Done? ==> investedNat == old(investedNat) && periodHistory == old(periodHistory)
      ensures r.Done? ==> totalSupply == old(totalSupply) && initialized == old(initialized)
      ensures r.Done? ==> liquidity == old(liquidity) && liquiditySupply == old(liquiditySupply)
    {
      if PhaseAtTime(now) !in {RetractPhase, TradingPhase} {
        return Revert(NotTradingPhase);
      }
      if value == 0 {
        return Revert(InsufficientInput);
      }
      if reserveNat == 0 || reserveKuco == 0 {
        return Revert(InsufficientLiquidity);
      }
      C.SwapOutputClosedForm(reserveNat, reserveKuco, value);
      var out: nat := C.SwapOutput(reserveNat, reserveKuco, value).value;
      if out == 0 || out < minOut {
        return Revert(InsufficientOutput);
      }
      reserveNat := reserveNat + value;
      reserveKuco := reserveKuco - out;
      CreditSum(balances, receiver, out);
      balances := Credit(balances, receiver, out);
      r := Done(out);
    }

    /**
     * `sell(amountIn, minOut, receiver)`: swaps the sender's KUCO for NAT
     * paid to `receiver`, with the same reverts as `buy`.
     */
    method Sell(sender: Addr, amountIn: nat, minOut: nat, receiver: Addr, now: nat) returns (r: Outcome<nat>)
      requires Valid()
      modifies this
      ensures Valid()
      ensures old(PhaseAtTime(now)) !in {RetractPhase, TradingPhase} ==> r == Revert(NotTradingPhase)
      ensures old(PhaseAtTime(now)) in {RetractPhase, TradingPhase} && old(BalanceOf(sender)) < amountIn ==> r == Revert(InsufficientBalance)
      ensures old(PhaseAtTime(now)) in {RetractPhase, TradingPhase} && amountIn == 0 ==> r == Revert(InsufficientInput)
      ensures (old(PhaseAtTime(now)) in {RetractPhase, TradingPhase} && 0 < amountIn <= old(BalanceOf(sender))
               && (old(reserveKuco) == 0 || old(reserveNat) == 0)) ==> r == Revert(InsufficientLiquidity)
      ensures r.Revert? ==> unchanged(this)
      ensures r.Done? ==> C.SwapOutput(old(reserveKuco), old(reserveNat), amountIn) == C.Ok(r.value as int)
      ensures r.Done? ==> 0 < r.value && minOut <= r.value
      ensures r.Done? <==> old(PhaseAtTime(now)) in {RetractPhase, TradingPhase} && 0 < amountIn <= old(BalanceOf(sender))
                           && 0 < old(reserveKuco) && 0 < old(reserveNat)
                           && C.SwapOutput(old(reserveKuco), old(reserveNat), amountIn).Ok?
                           && 0 < C.SwapOutput(old(reserveKuco), old(reserveNat), amountIn).value
                           && minOut <= C.SwapOutput(old(reserveKuco), old(reserveNat), amountIn).value
      ensures r.Done? ==> reserveKuco == old(reserveKuco) + amountIn && reserveNat == old(reserveNat) - r.value
      ensures r.Done? ==> balances == Debit(old(balances), sender, amountIn)
      ensures r.Done? ==> investedNat == old(investedNat) && periodHistory == old(periodHistory)
      ensures r.Done? ==> totalSupply == old(totalSupply) && initialized == old(initialized)
      ensures r.Done? ==> liquidity == old(liquidity) && liquiditySupply == old(liquiditySupply)
    {
      if PhaseAtTime(now) !in {RetractPhase, TradingPhase} {
        return Revert(NotTradingPhase);
      }
      if BalanceOf(sender) < amountIn {
        return Revert(InsufficientBalance);
      }
      if amountIn == 0 {
        return Revert(InsufficientInput);
      }
      if reserveKuco == 0 || reserveNat == 0 {
        return Revert(InsufficientLiquidity);
      }
      C.SwapOutputClosedForm(reserveKuco, reserveNat, amountIn);
      var out: nat := C.SwapOutput(reserveKuco, reserveNat, amountIn).value;
      if out == 0 || out < minOut {
        return Revert(InsufficientOutput);
      }
      DebitSum(balances, sender, amountIn);
      balances := Debit(balances, sender, amountIn);
      reserveKuco := reserveKuco + amountIn;
      reserveNat := reserveNat - out;
      r := Done(out);
    }

    /**
     * What `addLiquidity(amountKuco, minKuco, minNat, receiver)` with `value`
     * NAT by `provider` does at the current state: the reference split of
     * the offered KUCO and NAT, and the pool shares it mints, or why it
     * reverts.
     */
    function LiquidityPlan(provider: Addr, amountKuco: nat, minKuco: nat, minNat: nat, value: nat): (r: Outcome<AddedLiquidity>)
      reads this
      ensures reserveKuco == 0 || reserveNat == 0 ==> r == Revert(InsufficientLiquidity)
      ensures r.Done? ==> C.OptimalAddedLiquidity(value, amountKuco, reserveNat, reserveKuco)
                          == C.Ok((r.value.usedNat as int, r.value.usedKuco as int))
      ensures r.Done? ==> minNat <= r.value.usedNat <= value && minKuco <= r.value.usedKuco <= amountKuco
      ensures r.Done? ==> r.value.usedNat == value || r.value.usedKuco == amountKuco
      ensures r.Done? ==> r.value.usedKuco <= BalanceOf(provider)
      ensures r.Done? ==> 0 < reserveNat && 0 < reserveKuco && 0 < r.value.minted
      ensures r.Done? ==> r.value.minted == P.ProportionalMint(r.value.usedNat, r.value.usedKuco, reserveNat, reserveKuco, liquiditySupply)
      ensures r.Done? ==> r.value.minted * reserveNat <= r.value.usedNat * liquiditySupply
                          && r.value.minted * reserveKuco <= r.value.usedKuco * liquiditySupply
    {
      if reserveKuco == 0 || reserveNat == 0 then Revert(InsufficientLiquidity)
      else
        C.OptimalAddedLiquidityBounded(value, amountKuco, reserveNat, reserveKuco);
        var amounts := C.OptimalAddedLiquidity(value, amountKuco, reserveNat, reserveKuco);
        var usedNat: nat, usedKuco: nat := amounts.value.0, amounts.value.1;
        if usedNat < minNat || usedKuco < minKuco then Revert(InsufficientOutput)
        else if BalanceOf(provider) < usedKuco then Revert(InsufficientBalance)
        else
          var minted := P.ProportionalMint(usedNat, usedKuco, reserveNat, reserveKuco, liquiditySupply);
          P.ProportionalMintFair(usedNat, usedKuco, reserveNat, reserveKuco, liquiditySupply);
          if minted == 0 then Revert(InsufficientLiquidity)
          else Done(AddedLiquidity(usedKuco, usedNat, minted))
    }

    /**
     * `addLiquidity(amountKuco, minKuco, minNat, receiver)` with `value` NAT
     * by `provider`: moves the planned KUCO and NAT into the pool and mints
     * the planned shares to `receiver`; the NAT not used goes back to the
     * provider.
     */
    method AddLiquidity(provider: Addr, amountKuco: nat, minKuco: nat, minNat: nat, receiver: Addr, value: nat)
      returns (r: Outcome<AddedLiquidity>)
      requires Valid()
      modifies this
      ensures Valid()
      ensures r == old(LiquidityPlan(provider, amountKuco, minKuco, minNat, value))
      ensures r.Revert? ==> unchanged(this)
      ensures r.Done? ==> reserveNat == old(reserveNat) + r.value.usedNat && reserveKuco == old(reserveKuco) + r.value.usedKuco
      ensures r.Done? ==> balances == Debit(old(balances), provider, r.value.usedKuco)
      ensures r.Done? && receiver != provider ==> BalanceOf(receiver) == old(BalanceOf(receiver))
      ensures r.Done? ==> liquidity == Credit(old(liquidity), receiver, r.value.minted)
                          && liquiditySupply == old(liquiditySupply) + r.value.minted && LiquidityOf(receiver) > 0
      ensures r.Done? ==> investedNat == old(investedNat) && periodHistory == old(periodHistory)
      ensures r.Done? ==> totalSupply == old(totalSupply) && initialized == old(initialized)
    {
      r := LiquidityPlan(provider, amountKuco, minKuco, minNat, value);
      if r.Revert? {
        return;
      }
      var d := r.value;
      DebitSum(balances, provider, d.usedKuco);
      balances := Debit(balances, provider, d.usedKuco);
      reserveNat, reserveKuco := reserveNat + d.usedNat, reserveKuco + d.usedKuco;
      CreditSum(liquidity, receiver, d.minted);
      liquidity := Credit(liquidity, receiver, d.minted);
      liquiditySupply := liquiditySupply + d.minted;
    }

    /** `transfer(to, amount)`: moves exactly `amount` from the sender to `to`. */
    method Transfer(sender: Addr, to: Addr, amount: nat) returns (r: Outcome<()>)
      requires Valid()
      modifies this
      ensures Valid()
      ensures r == if old(BalanceOf(sender)) < amount then Revert(InsufficientBalance) else Done(())
      ensures r.Revert? ==> unchanged(this)
      ensures r.Done? ==> balances == Move(old(balances), sender, to, amount)
      ensures r.Done? && sender != to ==>
        BalanceOf(sender) == old(BalanceOf(sender)) - amount && BalanceOf(to) == old(BalanceOf(to)) + amount
      ensures r.Done? ==> forall a :: a != sender && a != to ==> BalanceOf(a) == old(BalanceOf(a))
      ensures r.Done? ==> reserveKuco == old(reserveKuco) && reserveNat == old(reserveNat)
      ensures r.Done? ==> investedNat == old(investedNat) && periodHistory == old(periodHistory)
      ensures r.Done? ==> totalSupply == old(totalSupply) && initialized == old(initialized)
      ensures r.Done? ==> liquidity == old(liquidity) && liquiditySupply == old(liquiditySupply)
    {
      if BalanceOf(sender) < amount {
        return Revert(InsufficientBalance);
      }
      MovePreservesSum(balances, sender, to, amount);
      balances := Move(balances, sender, to, amount);
      r := Done(());
    }

    /** `makeTransAction(to, amount)`: a transfer under another name; no fee is visible. */
    method MakeTransAction(sender: Addr, to: Addr, amount: nat) returns (r: Outcome<()>)
      requires Valid()
      modifies this
      ensures Valid()
      ensures r == if old(BalanceOf(sender)) < amount then Revert(InsufficientBalance) else Done(())
      ensures r.Revert? ==> unchanged(this)
      ensures r.Done? ==> balances == Move(old(balances), sender, to, amount)
      ensures r.Done? && sender != to ==>
        BalanceOf(sender) == old(BalanceOf(sender)) - amount && BalanceOf(to) == old(BalanceOf(to)) + amount
      ensures r.Done? ==> forall a :: a != sender && a != to ==> BalanceOf(a) == old(BalanceOf(a))
      ensures r.Done? ==> reserveKuco == old(reserveKuco) && reserveNat == old(reserveNat)
      ensures r.Done? ==> investedNat == old(investedNat) && periodHistory == old(periodHistory)
      ensures r.Done? ==> totalSupply == old(totalSupply) && initialized == old(initialized)
      ensures r.Done? ==> liquidity == old(liquidity) && liquiditySupply == old(liquiditySupply)
    {
      r := Transfer(sender, to, amount);
    }

    /** `reportPeriod()`: appends the block time to the sender's log; needs no `initialize`. */
    method ReportPeriod(sender: Addr, now: nat)
      requires Valid()
      modifies this
      ensures Valid()
      ensures PeriodHistory(sender) == old(PeriodHistory(sender)) + [now]
      ensures forall a :: a != sender ==> PeriodHistory(a) == old(PeriodHistory(a))
      ensures periodHistory.Keys == old(periodHistory.Keys) + {sender}
      ensures balances == old(balances) && investedNat == old(investedNat)
      ensures reserveKuco == old(reserveKuco) && reserveNat == old(reserveNat)
      ensures totalSupply == old(totalSupply) && initialized == old(initialized)
      ensures liquidity == old(liquidity) && liquiditySupply == old(liquiditySupply)
    {
      periodHistory := periodHistory[sender := PeriodHistory(sender) + [now]];
    }
  }

  // ---------------------------------------------------------------------------
  // The test scenarios, replayed against the contracts above
  // ---------------------------------------------------------------------------

  const InvestmentReturnBips := 11_000
  const InvestmentDuration := 30 * 24 * 60 * 60
  const RetractDuration := 7 * 24 * 60 * 60
  const RetractFeeBips := 500

  /** Before `initialize` nothing can be invested, and before trading nothing can be bought. */
  method SecurityScenario(admin: Addr, investor: Addr, deployedAt: nat, firstMint: (nat, nat) -> nat)
  {
    var coin := new KucoCoin(InvestmentReturnBips, InvestmentDuration, RetractFeeBips, RetractDuration, firstMint, deployedAt);
    var r := coin.Invest(investor, 100, deployedAt + 1);
    assert r == Revert(NotInvestmentPhase);
    var b := coin.Buy(investor, 100, 0, deployedAt + 1);
    assert b.Revert?;
    var i := coin.Initialize(100_000_000, 100);
    b := coin.Buy(investor, 100, 0, deployedAt + 2);
    assert b.Revert?;
  }

  /** A buy at the test's reserves pays exactly the reference quote into the receiver's balance. */
  method BuyScenario(buyer: Addr, receiver: Addr, deployedAt: nat, firstMint: (nat, nat) -> nat)
  {
    var coin := new KucoCoin(InvestmentReturnBips, InvestmentDuration, RetractFeeBips, RetractDuration, firstMint, deployedAt);
    var i := coin.Initialize(100_000_000, 100);
    C.SwapOutputExample();
    var b := coin.Buy(receiver, 100, 100, coin.tradingPhaseStart + coin.retractDuration);
    assert b == Done(49_924_887);
    assert coin.BalanceOf(receiver) == 49_924_887 && coin.reserveNat == 200;
  }

  /** A pool seeded without NAT cannot be bought from: one wei does not take the whole KUCO reserve. */
  method EmptyReserveScenario(buyer: Addr, deployedAt: nat, firstMint: (nat, nat) -> nat)
  {
    var coin := new KucoCoin(InvestmentReturnBips, InvestmentDuration, RetractFeeBips, RetractDuration, firstMint, deployedAt);
    var i := coin.Initialize(100, 0);
    var b := coin.Buy(buyer, 1, 0, coin.tradingPhaseStart);
    assert b == Revert(InsufficientLiquidity) && coin.reserveKuco == 100;
    b := coin.Buy(buyer, 0, 0, coin.tradingPhaseStart);
    assert b == Revert(InsufficientInput);
  }

  /** An investment is claimed once; the second claim reverts. */
  method ClaimTwiceScenario(investor: Addr, deployedAt: nat, firstMint: (nat, nat) -> nat)
  {
    var coin := new KucoCoin(InvestmentReturnBips, InvestmentDuration, RetractFeeBips, RetractDuration, firstMint, deployedAt);
    var i := coin.Initialize(100_000_000, 100);
    var r := coin.Invest(investor, 100, deployedAt + 1);
    assert r.Done? && coin.InvestedNatOf(investor) == 100 && coin.reserveNat == 200;
    var tradingAt := coin.tradingPhaseStart + coin.retractDuration;
    var c := coin.Claim(investor, investor, tradingAt);
    assert c.Done?;
    c := coin.Claim(investor, investor, tradingAt + 1);
    assert c == Revert(NoInvestmentToClaim);
  }

  /** A retract right after trading starts refunds 95% of the investment out of the NAT reserve. */
  method RetractScenario(investor: Addr, retractee: Addr, deployedAt: nat, firstMint: (nat, nat) -> nat)
  {
    var coin := new KucoCoin(InvestmentReturnBips, InvestmentDuration, RetractFeeBips, RetractDuration, firstMint, deployedAt);
    var i := coin.Initialize(100_000_000, 100);
    var r := coin.Invest(investor, 1000, deployedAt + 1);
    var paid := coin.Retract(investor, retractee, coin.tradingPhaseStart);
    assert paid == Done(950);
    assert coin.reserveNat == 150 && coin.reserveKuco == 100_000_000;
    var c := coin.Claim(investor, investor, coin.tradingPhaseStart + 1);
    assert c == Revert(NoInvestmentToClaim);
  }

  /**
   * Liquidity added at the pool price after a claim: the reserves rise by
   * the deposit, the receiver holds new pool shares and no new KUCO.
   */
  method AddLiquidityScenario(provider: Addr, receiver: Addr, deployedAt: nat, firstMint: (nat, nat) -> nat)
    requires provider != receiver
    requires 20 <= firstMint(100_000_000, 100)
  {
    var coin := new KucoCoin(InvestmentReturnBips, InvestmentDuration, RetractFeeBips, RetractDuration, firstMint, deployedAt);
    var i := coin.Initialize(100_000_000, 100);
    var r := coin.Invest(provider, 100, deployedAt + 1);
    var c := coin.Claim(provider, provider, coin.tradingPhaseStart + coin.retractDuration);
    assert C.RewardKucoFromInvestedNat(100, 100_000_000, 200, InvestmentReturnBips) == C.Ok(55_000_000);
    assert c == Done(55_000_000) && coin.BalanceOf(provider) == 55_000_000;
    var shares := coin.liquiditySupply;
    C.DivAtLeast(1, 10 * shares, 200);
    C.DivAtLeast(1, 5_000_000 * shares, 100_000_000);
    var a := coin.AddLiquidity(provider, 5_000_000, 0, 0, receiver, 10);
    assert C.OptimalAddedLiquidity(10, 5_000_000, 200, 100_000_000) == C.Ok((10, 5_000_000));
    assert a.Done? && a.value.usedKuco == 5_000_000 && a.value.usedNat == 10;
    assert coin.reserveKuco == 105_000_000 && coin.reserveNat == 210;
    assert coin.BalanceOf(provider) == 50_000_000 && coin.BalanceOf(receiver) == 0;
    assert coin.LiquidityOf(receiver) > 0;
  }

  /** `getPeriodHistory` returns the times of the sender's reports, in order. */
  method PeriodScenario(reporter: Addr, t: nat, firstMint: (nat, nat) -> nat)
  {
    var coin := new KucoCoin(InvestmentReturnBips, InvestmentDuration, RetractFeeBips, RetractDuration, firstMint, t);
    coin.ReportPeriod(reporter, t);
    coin.ReportPeriod(reporter, t + 31412);
    coin.ReportPeriod(reporter, t + 31413);
    coin.ReportPeriod(reporter, t + 32413);
    assert coin.PeriodHistory(reporter) == [t, t + 31412, t + 31413, t + 32413];
  }
}
