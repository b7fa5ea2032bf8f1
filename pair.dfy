/**
 * A Uniswap V2 pair as its router tests pin it down
 * (packages/contracts/test/uniswap-v2.test.ts): two stored reserves, the
 * token amounts the pair actually holds, liquidity shares with their total
 * supply, and the two tokens' balances of outside accounts.
 *
 * Following section 3.2 of the Uniswap V2 core whitepaper, deposits and
 * withdrawals move the held amounts and then copy them into the reserves,
 * and `sync` copies them without moving anything. The shares minted for the
 * very first deposit (section 3.4 of the whitepaper) are a parameter of the
 * model, `firstMint`.
 */
module UniswapPair {
  import opened Balances
  import C = Calculations

  /** Why a call reverted. */
  datatype Reason =
    | InsufficientAmountA    // a slippage bound on token A was not met
    | InsufficientAmountB    // a slippage bound on token B was not met
    | InsufficientBalance    // an account or the pair holds too little of a token
    | InsufficientShares     // the provider holds fewer shares than it burns
    | InsufficientLiquidity  // the reserves cannot price the deposit, or a mint or burn comes to nothing

  /** A call either completes with a value or reverts with every field untouched. */
  datatype Outcome<T> = Done(value: T) | Revert(reason: Reason)

  /** What a deposit took from the provider and minted to the receiver. */
  datatype Deposit = Deposit(usedA: nat, usedB: nat, minted: nat)

  /** The token amounts a deposit uses: all of it into an empty pool, otherwise the reference split. */
  function DepositAmounts(desiredA: nat, desiredB: nat, reserveA: nat, reserveB: nat): C.Computed<(int, int)>
  {
    if reserveA == 0 && reserveB == 0 then C.Ok((desiredA as int, desiredB as int))
    else C.OptimalAddedLiquidity(desiredA, desiredB, reserveA, reserveB)
  }

  /** Deposits use at most what was offered, and into a funded pool keep the reserve ratio. */
  lemma DepositAmountsBounded(desiredA: nat, desiredB: nat, reserveA: nat, reserveB: nat)
    ensures DepositAmounts(desiredA, desiredB, reserveA, reserveB).Throws? <==> reserveA != 0 && reserveB == 0
    ensures DepositAmounts(desiredA, desiredB, reserveA, reserveB).Ok? ==>
      var (usedA, usedB) := DepositAmounts(desiredA, desiredB, reserveA, reserveB).value;
      && 0 <= usedA <= desiredA && 0 <= usedB <= desiredB
      && (usedA == desiredA || usedB == desiredB)
  {
    C.OptimalAddedLiquidityThrows(desiredA, desiredB, reserveA, reserveB);
    if reserveB != 0 {
      C.OptimalAddedLiquidityBounded(desiredA, desiredB, reserveA, reserveB);
    }
  }

  /** Shares minted into a funded pool: the smaller of the two proportional claims. */
  function ProportionalMint(amountA: nat, amountB: nat, reserveA: nat, reserveB: nat, totalSupply: nat): nat
    requires 0 < reserveA && 0 < reserveB
  {
    var byA := amountA * totalSupply / reserveA;
    var byB := amountB * totalSupply / reserveB;
    if byA <= byB then byA else byB
  }

  /** A proportional mint never dilutes existing holders: each side's share of the pool does not shrink. */
  lemma ProportionalMintFair(amountA: nat, amountB: nat, reserveA: nat, reserveB: nat, totalSupply: nat)
    requires 0 < reserveA && 0 < reserveB
    ensures ProportionalMint(amountA, amountB, reserveA, reserveB, totalSupply) * reserveA <= amountA * totalSupply
    ensures ProportionalMint(amountA, amountB, reserveA, reserveB, totalSupply) * reserveB <= amountB * totalSupply
  {
    var m := ProportionalMint(amountA, amountB, reserveA, reserveB, totalSupply);
    C.MulNonNegative(amountA, totalSupply);
    C.MulNonNegative(amountB, totalSupply);
    C.DivBracket(amountA * totalSupply, reserveA);
    C.DivBracket(amountB * totalSupply, reserveB);
    C.MulMonotone(m, amountA * totalSupply / reserveA, reserveA);
    C.MulMonotone(m, amountB * totalSupply / reserveB, reserveB);
  }

  /** The amount of one token paid for burning `liquidity` of `totalSupply` shares. */
  function BurnShare(liquidity: nat, held: nat, totalSupply: nat): nat
    requires 0 < totalSupply
  {
    liquidity * held / totalSupply
  }

  /** A burn never pays more than the pair holds, and burning every share pays out everything. */
  lemma BurnShareBounded(liquidity: nat, held: nat, totalSupply: nat)
    requires 0 < totalSupply && liquidity <= totalSupply
    ensures BurnShare(liquidity, held, totalSupply) <= held
    ensures liquidity == totalSupply ==> BurnShare(liquidity, held, totalSupply) == held
  {
    C.MulMonotone(liquidity, totalSupply, held);
    assert totalSupply * held < (held + 1) * totalSupply;
    C.DivAtMost(held, liquidity * held, totalSupply);
    if liquidity == totalSupply {
      C.DivAtLeast(held, liquidity * held, totalSupply);
    }
  }

  class Pair {
    /** Shares minted for the first deposit, from the two amounts deposited. */
    const firstMint: (nat, nat) -> nat

    var reserveA: nat
    var reserveB: nat
    var heldA: nat
    var heldB: nat
    var totalSupply: nat
    var shares: map<Addr, nat>
    var tokenA: map<Addr, nat>
    var tokenB: map<Addr, nat>

    /** The shares outstanding add up to the total supply. */
    ghost predicate Valid()
      reads this
    {
      totalSupply == Sum(shares)
    }

    /** The stored reserves match what the pair holds. */
    predicate Synced()
      reads this
    {
      reserveA == heldA && reserveB == heldB
    }

    function SharesOf(a: Addr): nat
      reads this
    {
      Get(shares, a)
    }

    constructor (firstMint: (nat, nat) -> nat)
      ensures Valid() && Synced()
      ensures this.firstMint == firstMint
      ensures reserveA == 0 && reserveB == 0 && heldA == 0 && heldB == 0 && totalSupply == 0
      ensures shares == map[] && tokenA == map[] && tokenB == map[]
    {
      this.firstMint := firstMint;
      reserveA, reserveB, heldA, heldB, totalSupply := 0, 0, 0, 0, 0;
      shares, tokenA, tokenB := map[], map[], map[];
    }

    /** Token faucet of the tests (`FakeERC20.mint`): credits `to` with both tokens. */
    method MintTokens(to: Addr, amountA: nat, amountB: nat)
      requires Valid()
      modifies this
      ensures Valid()
      ensures tokenA == Credit(old(tokenA), to, amountA) && tokenB == Credit(old(tokenB), to, amountB)
      ensures reserveA == old(reserveA) && reserveB == old(reserveB) && heldA == old(heldA) && heldB == old(heldB)
      ensures totalSupply == old(totalSupply) && shares == old(shares)
    {
      tokenA := Credit(tokenA, to, amountA);
      tokenB := Credit(tokenB, to, amountB);
    }

    /** Tokens burnt straight out of the pair (`FakeERC20.burn(pair, ...)`), bypassing the reserves. */
    method BurnHeld(amountA: nat, amountB: nat) returns (r: Outcome<()>)
      requires Valid()
      modifies this
      ensures Valid()
      ensures r == if amountA <= old(heldA) && amountB <= old(heldB) then Done(()) else Revert(InsufficientBalance)
      ensures r.Revert? ==> unchanged(this)
      ensures r.Done? ==> heldA == old(heldA) - amountA && heldB == old(heldB) - amountB
      ensures r.Done? ==> reserveA == old(reserveA) && reserveB == old(reserveB)
      ensures r.Done? ==> totalSupply == old(totalSupply) && shares == old(shares)
      ensures r.Done? ==> tokenA == old(tokenA) && tokenB == old(tokenB)
    {
      if amountA > heldA || amountB > heldB {
        return Revert(InsufficientBalance);
      }
      heldA, heldB := heldA - amountA, heldB - amountB;
      r := Done(());
    }

    /** `sync()`: the reserves become the amounts the pair holds. */
    method Sync()
      requires Valid()
      modifies this
      ensures Valid() && Synced()
      ensures reserveA == old(heldA) && reserveB == old(heldB)
      ensures heldA == old(heldA) && heldB == old(heldB)
      ensures totalSupply == old(totalSupply) && shares == old(shares)
      ensures tokenA == old(tokenA) && tokenB == old(tokenB)
    {
      reserveA, reserveB := heldA, heldB;
    }

    /**
     * What `addLiquidity(desiredA, desiredB, minA, minB, to)` by `provider`
     * does at the current state: the amounts it takes and the shares it
     * mints, or why it reverts.
     */
    function DepositPlan(provider: Addr, desiredA: nat, desiredB: nat, minA: nat, minB: nat): (r: Outcome<Deposit>)
      reads this
      ensures DepositAmounts(desiredA, desiredB, reserveA, reserveB).Throws? ==> r == Revert(InsufficientLiquidity)
      ensures r.Done? ==> DepositAmounts(desiredA, desiredB, reserveA, reserveB) == C.Ok((r.value.usedA as int, r.value.usedB as int))
      ensures r.Done? ==> minA <= r.value.usedA <= desiredA && minB <= r.value.usedB <= desiredB
      ensures r.Done? ==> r.value.usedA == desiredA || r.value.usedB == desiredB
      ensures r.Done? ==> r.value.usedA <= Get(tokenA, provider) && r.value.usedB <= Get(tokenB, provider)
      ensures r.Done? ==> reserveA <= heldA + r.value.usedA && reserveB <= heldB + r.value.usedB
      ensures r.Done? && totalSupply != 0 ==>
        && 0 < reserveA && 0 < reserveB
        && r.value.minted * reserveA <= (heldA + r.value.usedA - reserveA) * totalSupply
        && r.value.minted * reserveB <= (heldB + r.value.usedB - reserveB) * totalSupply
      ensures r.Done? && totalSupply != 0 ==>
        r.value.minted == ProportionalMint(heldA + r.value.usedA - reserveA, heldB + r.value.usedB - reserveB,
                                           reserveA, reserveB, totalSupply)
      ensures r.Done? ==> 0 < r.value.minted
      ensures r.Done? && totalSupply == 0 ==> r.value.minted == firstMint(heldA + r.value.usedA - reserveA, heldB + r.value.usedB - reserveB)
    {
      DepositAmountsBounded(desiredA, desiredB, reserveA, reserveB);
      var amounts := DepositAmounts(desiredA, desiredB, reserveA, reserveB);
      if amounts.Throws? then Revert(InsufficientLiquidity)
      else
        var usedA: nat, usedB: nat := amounts.value.0, amounts.value.1;
        if usedA < minA then Revert(InsufficientAmountA)
        else if usedB < minB then Revert(InsufficientAmountB)
        else if Get(tokenA, provider) < usedA || Get(tokenB, provider) < usedB then Revert(InsufficientBalance)
        else if heldA + usedA < reserveA || heldB + usedB < reserveB then Revert(InsufficientBalance)
        else
          var amountA: nat, amountB: nat := heldA + usedA - reserveA, heldB + usedB - reserveB;
          if totalSupply == 0 then
            var minted := firstMint(amountA, amountB);
            if minted == 0 then Revert(InsufficientLiquidity) else Done(Deposit(usedA, usedB, minted))
          else if reserveA == 0 || reserveB == 0 then Revert(InsufficientLiquidity)
          else
            var minted := ProportionalMint(amountA, amountB, reserveA, reserveB, totalSupply);
            ProportionalMintFair(amountA, amountB, reserveA, reserveB, totalSupply);
            if minted == 0 then Revert(InsufficientLiquidity) else Done(Deposit(usedA, usedB, minted))
    }

    /**
     * `addLiquidity(desiredA, desiredB, minA, minB, to)` by `provider`: takes
     * the planned amounts from the provider, mints the planned shares to
     * `to`, and makes the new holdings the reserves.
     */
    method AddLiquidity(provider: Addr, desiredA: nat, desiredB: nat, minA: nat, minB: nat, to: Addr)
      returns (r: Outcome<Deposit>)
      requires Valid()
      modifies this
      ensures Valid()
      ensures r == old(DepositPlan(provider, desiredA, desiredB, minA, minB))
      ensures r.Revert? ==> unchanged(this)
      ensures r.Done? ==> tokenA == Debit(old(tokenA), provider, r.value.usedA)
                          && tokenB == Debit(old(tokenB), provider, r.value.usedB)
      ensures r.Done? ==> heldA == old(heldA) + r.value.usedA && heldB == old(heldB) + r.value.usedB && Synced()
      ensures r.Done? ==> shares == Credit(old(shares), to, r.value.minted)
                          && totalSupply == old(totalSupply) + r.value.minted
    {
      r := DepositPlan(provider, desiredA, desiredB, minA, minB);
      if r.Revert? {
        return;
      }
      var d := r.value;
      tokenA := Debit(tokenA, provider, d.usedA);
      tokenB := Debit(tokenB, provider, d.usedB);
      heldA, heldB := heldA + d.usedA, heldB + d.usedB;
      CreditSum(shares, to, d.minted);
      shares := Credit(shares, to, d.minted);
      totalSupply := totalSupply + d.minted;
      reserveA, reserveB := heldA, heldB;
    }

    /**
     * What `removeLiquidity(liquidity, minA, minB, to)` by `provider` pays
     * out at the current state, or why it reverts.
     */
    function WithdrawalPlan(provider: Addr, liquidity: nat, minA: nat, minB: nat): (r: Outcome<(nat, nat)>)
      reads this
      requires Valid()
      ensures SharesOf(provider) < liquidity ==> r == Revert(InsufficientShares)
      ensures r.Done? ==> 0 < totalSupply && liquidity <= SharesOf(provider) && liquidity <= totalSupply
      ensures r.Done? ==> r.value == (BurnShare(liquidity, heldA, totalSupply), BurnShare(liquidity, heldB, totalSupply))
      ensures r.Done? ==> minA <= r.value.0 <= heldA && minB <= r.value.1 <= heldB
      ensures r.Done? ==> 0 < r.value.0 && 0 < r.value.1
      ensures (liquidity <= SharesOf(provider) && 0 < totalSupply
               && (BurnShare(liquidity, heldA, totalSupply) == 0 || BurnShare(liquidity, heldB, totalSupply) == 0))
              ==> r == Revert(InsufficientLiquidity)
      ensures r.Done? && liquidity == totalSupply ==> r.value == (heldA, heldB)
    {
      if SharesOf(provider) < liquidity then Revert(InsufficientShares)
      else if totalSupply == 0 then Revert(InsufficientLiquidity)
      else
        GetAtMostSum(shares, provider);
        BurnShareBounded(liquidity, heldA, totalSupply);
        BurnShareBounded(liquidity, heldB, totalSupply);
        var amountA, amountB := BurnShare(liquidity, heldA, totalSupply), BurnShare(liquidity, heldB, totalSupply);
        if amountA == 0 || amountB == 0 then Revert(InsufficientLiquidity)
        else if amountA < minA then Revert(InsufficientAmountA)
        else if amountB < minB then Revert(InsufficientAmountB)
        else Done((amountA, amountB))
    }

    /**
     * `removeLiquidity(liquidity, minA, minB, to)` by `provider`: burns the
     * provider's shares, pays `to` the planned amounts, and makes the new
     * holdings the reserves.
     */
    method RemoveLiquidity(provider: Addr, liquidity: nat, minA: nat, minB: nat, to: Addr)
      returns (r: Outcome<(nat, nat)>)
      requires Valid()
      modifies this
      ensures Valid()
      ensures r == old(WithdrawalPlan(provider, liquidity, minA, minB))
      ensures r.Revert? ==> unchanged(this)
      ensures r.Done? ==> heldA == old(heldA) - r.value.0 && heldB == old(heldB) - r.value.1 && Synced()
      ensures r.Done? ==> tokenA == Credit(old(tokenA), to, r.value.0) && tokenB == Credit(old(tokenB), to, r.value.1)
      ensures r.Done? ==> shares == Debit(old(shares), provider, liquidity)
                          && totalSupply == old(totalSupply) - liquidity
    {
      r := WithdrawalPlan(provider, liquidity, minA, minB);
      if r.Revert? {
        return;
      }
      var (amountA, amountB) := r.value;
      DebitSum(shares, provider, liquidity);
      shares := Debit(shares, provider, liquidity);
      totalSupply := totalSupply - liquidity;
      heldA, heldB := heldA - amountA, heldB - amountB;
      tokenA := Credit(tokenA, to, amountA);
      tokenB := Credit(tokenB, to, amountB);
      reserveA, reserveB := heldA, heldB;
    }
  }

  // ---------------------------------------------------------------------------
  // The router tests, replayed against the contracts above
  // (amounts in units of 10^-4 token so that every figure is whole)
  // ---------------------------------------------------------------------------

  /** A first deposit into an empty pair is taken whole: the pair holds exactly what was offered. */
  method FirstDepositScenario(admin: Addr, firstMint: (nat, nat) -> nat)
    requires 0 < firstMint(1_000, 10)
  {
    var pair := new Pair(firstMint);
    pair.MintTokens(admin, 1_000, 10);
    var d := pair.AddLiquidity(admin, 1_000, 10, 1_000, 10, admin);
    assert d == Done(Deposit(1_000, 10, firstMint(1_000, 10)));
    assert pair.heldA == 1_000 && pair.heldB == 10 && pair.Synced();
  }

  /** A second deposit raises the reserves by the reference split of the offered amounts. */
  method ProvideTwiceScenario(admin: Addr, firstMint: (nat, nat) -> nat)
    requires 0 < firstMint(10_000, 311)
  {
    var pair := new Pair(firstMint);
    pair.MintTokens(admin, 10_000, 311);
    var d := pair.AddLiquidity(admin, 10_000, 311, 0, 0, admin);
    assert d.Done? && pair.reserveA == 10_000 && pair.reserveB == 311;
    pair.MintTokens(admin, 100_000, 4_000);
    d := pair.AddLiquidity(admin, 100_000, 4_000, 0, 0, admin);
    assert C.OptimalAddedLiquidity(100_000, 4_000, 10_000, 311) == C.Ok((100_000, 3_110));
    assert d.Done?;
    assert pair.reserveA == 10_000 + 100_000 && pair.reserveB == 311 + 3_110;
  }

  /**
   * Burning the shares worth a slice of token A pays the provider, and takes
   * from the reserves, exactly the quoted amounts.
   */
  method RemoveScenario(provider: Addr, firstMint: (nat, nat) -> nat)
    requires firstMint(41_004_141, 311_311_000) == 100_000
  {
    var pair := new Pair(firstMint);
    pair.MintTokens(provider, 41_004_141, 311_311_000);
    var d := pair.AddLiquidity(provider, 41_004_141, 311_311_000, 0, 0, provider);
    assert d.Done?;
    var total := pair.totalSupply;
    assert total == 100_000;
    // the shares worth 1 000 000 of token A: totalLiquidity * removed / initialReserve
    var liquidity := 1_000_000 * total / 41_004_141;
    assert liquidity == 2_438;
    var amountA := BurnShare(liquidity, 41_004_141, total);
    var amountB := BurnShare(liquidity, 311_311_000, total);
    assert amountA == 999_680 && amountB == 7_589_762;
    var nothing := pair.RemoveLiquidity(provider, 0, 0, 0, provider);
    assert nothing == Revert(InsufficientLiquidity);
    var w := pair.RemoveLiquidity(provider, liquidity, amountA, amountB, provider);
    assert w == Done((amountA, amountB));
    assert pair.reserveA == 41_004_141 - amountA && pair.reserveB == 311_311_000 - amountB;
    assert Get(pair.tokenA, provider) == amountA && Get(pair.tokenB, provider) == amountB;
  }

  /** Tokens burnt out of the pair reach the reserves only through `sync`. */
  method SyncScenario(admin: Addr, firstMint: (nat, nat) -> nat)
    requires 0 < firstMint(4_150, 100_000)
  {
    var pair := new Pair(firstMint);
    pair.MintTokens(admin, 4_150, 100_000);
    var d := pair.AddLiquidity(admin, 4_150, 100_000, 0, 0, admin);
    var b := pair.BurnHeld(1_000, 10_930);
    assert b.Done? && pair.reserveA == 4_150;
    pair.Sync();
    assert pair.reserveA == 4_150 - 1_000 && pair.reserveB == 100_000 - 10_930;
  }
}
