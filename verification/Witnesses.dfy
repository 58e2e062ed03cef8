/**
 Concrete inputs at which the code departs from its comments, or one operation from
 another. Each of them is an instance of an exact condition proved elsewhere.
 */
module Witnesses {
  import opened Prelude
  import opened Calendar
  import opened Pricing
  import opened HotWallets
  import opened SpendProperties
  import opened Submsgs
  import opened States
  import opened Machine
  import opened ExecuteProperties
  import opened Acceptance
  import opened Sequences
  import opened Tightness

  /** An admin's simulated send of no USDC clears the debt, and no repayment goes out. */
  lemma SimulationClearsSilently(cfg: Config, env: Env)
    requires cfg.IsAdmin(env.sender) && cfg.uusdFeeDebt > 0
    ensures Apply(cfg, Tx(env, SimExecute([UsdcSend(0)]))) == Outcome(cfg.(uusdFeeDebt := 0), [])
  {
    var msg := UsdcSend(0);
    assert SpentFunds(msg) == [Coin(AXL_USDC, 0)];
    assert CheckMsg(cfg, env, msg) == CheckCoins(cfg, env, SpentFunds(msg));
    assert [msg][1..] == [];
  }

  /** An admin with debt who is not listed cannot make a call of a token contract; a listed wallet can. */
  lemma DebtorAdminHasNoShortcut(cfg: Config, env: Env)
    requires cfg.uusdFeeDebt > 0
    ensures ExecuteExecute(cfg, env, [WasmExecute(DRINK_CONTRACT, Undecodable("{}"), [])], false).Ok?
            <==> cfg.IsActiveHotWallet(env.sender)
  {
  }

  /** A listed wallet's simulated call of a token contract is sent out. */
  lemma SimulatedShortcutIsSent(cfg: Config, env: Env)
    requires !cfg.IsAdmin(env.sender) && cfg.IsActiveHotWallet(env.sender)
    ensures var msg := WasmExecute(DRINK_CONTRACT, Undecodable("{}"), []);
            Apply(cfg, Tx(env, SimExecute([msg]))) == Outcome(cfg, [Forwarded(msg)])
  {
  }

  /** An admin cannot cancel its own proposal of another address. */
  lemma AdminCannotCancel(cfg: Config, env: Env)
    requires cfg.IsAdmin(env.sender) && cfg.pending != cfg.admin
    ensures Step(cfg, Tx(env, CancelUpdateAdmin)) == Err(CallerIsNotPendingNewAdmin)
  {
  }

  /** The query admits a hot wallet's delegation of no USDC, which the execute refuses. */
  lemma DelegationIsAdmittedOnly(cfg: Config, env: Env)
    requires !cfg.IsAdmin(env.sender) && cfg.GetWallet(env.sender).Some?
    requires cfg.GetWallet(env.sender).value.spendLimits != []
    ensures var msgs := [Delegate("validator", Coin(AXL_USDC, 0))];
            && QueryCanSpend(cfg, env, env.sender, msgs) == Ok(true)
            && ExecuteExecute(cfg, env, msgs, false).Err?
  {
    var w, m, coin := cfg.GetWallet(env.sender).value, cfg.MarketOn(env.dex), Coin(AXL_USDC, 0);
    assert Charge(m, coin) == 0;
    CheckSpendIsPerCoin(w, m, [coin], w.ShouldReset(env.time));
    DelegationsAreNotExecuted(cfg, env, "validator", coin);
  }

  /** Two coins that each fit in the limit, but not together: the query says yes, the send fails. */
  lemma QueryCountsCoinsSeparately(cfg: Config, env: Env)
    requires !cfg.IsAdmin(env.sender) && cfg.uusdFeeDebt == 0 && cfg.GetWallet(env.sender).Some?
    requires var w := cfg.GetWallet(env.sender).value; !w.ShouldReset(env.time) && w.Remaining() > 0
    ensures var left := cfg.GetWallet(env.sender).value.Remaining();
            var coin := Coin(AXL_USDC, left);
            var msgs := [Bank(BankMsg.Send("receiver", [coin, coin]))];
            && QueryCanSpend(cfg, env, env.sender, msgs) == Ok(true)
            && ExecuteExecute(cfg, env, msgs, false).Err?
  {
    var w, m := cfg.GetWallet(env.sender).value, cfg.MarketOn(env.dex);
    var coin := Coin(AXL_USDC, w.Remaining());
    var coins := [coin, coin];
    assert coins[1..] == [coin];
    assert Charge(m, coin) == w.Remaining() && Fits(w, m, coin, false);
    assert SumCharges(m, [coin]) == Charge(m, coin) + SumCharges(m, [coin][1..]);
    CheckSpendIsPerCoin(w, m, coins, false);
    SendMatchesQuery(cfg, env, "receiver", coins);
  }

  /** In December of 1970, a period of 12 months asks for month 0, and the refill panics. */
  lemma TwelveMonthsInDecember(w: Wallet)
    requires w.periodType == MONTHS && w.periodMultiple == 12
    ensures Month(Seconds(TimeIn1970(12))) == 12
    ensures w.NextReset(TimeIn1970(12)) == Err(Panicked) && w.ResetPeriod(TimeIn1970(12)) == Err(Panicked)
  {
    TimeIn1970Month(12);
    MonthResetIsExact(w, TimeIn1970(12));
  }

  /**
   For an admin with debt, a send of no USDC and then a delegation both pass, but together
   in one batch they fail: the batch checks the delegation, the second execute does not.
   */
  lemma BatchDiffersFromSequence(cfg: Config, env: Env)
    requires cfg.IsAdmin(env.sender) && cfg.uusdFeeDebt > 0
    ensures var a, b := [UsdcSend(0)], [Delegate("validator", Coin(MAINNET_DENOM, 1))];
            && ExecuteExecute(cfg, env, a + b, false) == Err(BadMessageType)
            && ExecuteTwice(cfg, env, a, b).Ok?
  {
    var a, b := [UsdcSend(0)], [Delegate("validator", Coin(MAINNET_DENOM, 1))];
    assert SpentFunds(a[0]) == [Coin(AXL_USDC, 0)];
    assert DebtCoin(cfg.MarketOn(env.dex), cfg.uusdFeeDebt, SpentFunds(a[0])).Some?;
    AdminWithDebt(cfg, env, a);
    SecondParts(cfg, env, a, b);
    CheckBatchInParts(cfg, env, a, b);
    FreesIsUnchecked(cfg, env, a);
    assert (a + b)[0] == a[0];
  }

  /** The query lets an admin with debt execute a delegation, which fails. */
  lemma CanExecuteAdmitsDelegation(cfg: Config, env: Env)
    requires cfg.IsAdmin(env.sender) && cfg.uusdFeeDebt > 0
    ensures var msg := Delegate("validator", Coin(MAINNET_DENOM, 1));
            && QueryCanExecute(cfg, env.sender, msg)
            && ExecuteExecute(cfg, env, [msg], false) == Err(BadMessageType)
  {
  }

  /** A hot wallet cannot transfer even 0 tokens of a contract that is not one of the shortcut's. */
  lemma TransferOfNothingFails(cfg: Config, env: Env)
    requires PairsOf(cfg.homeNetwork) == Ok(cfg.pairContracts) && !cfg.IsAdmin(env.sender)
    ensures ExecuteExecute(cfg, env, [WasmExecute("juno1cw20", Cw20(Transfer("receiver", 0)), [])], false).Err?
  {
    var addr := "juno1cw20";
    assert |addr| == 9 && |AXL_USDC| == 68 && |DRINK_CONTRACT| == |BOTTLE_CONTRACT| == 63;
    assert |DEX_DENOM| == |MAINNET_DENOM| == 5 && |TESTNET_DENOM| == 6 && |LOCAL_DENOM| == 10;
    ContractCallsNeedShortcut(cfg, env, [WasmExecute(addr, Cw20(Transfer("receiver", 0)), [])], 0, false);
  }
}
