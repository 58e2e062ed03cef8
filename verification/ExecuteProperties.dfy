/** What a batch does as a whole: its output, its parts, its simulation and its query. */
module ExecuteProperties {
  import opened Prelude
  import opened Pricing
  import opened HotWallets
  import opened SpendProperties
  import opened Submsgs
  import opened States
  import opened Machine

  // ----- the output of a batch

  /** The position of the first message whose coins are checked, or the length. */
  function FirstLimited(msgs: seq<CosmosMsg>): (i: nat)
    ensures i <= |msgs|
    ensures i < |msgs| ==> TypeOf(msgs[i]).Limited()
    ensures forall j :: 0 <= j < i ==> !TypeOf(msgs[j]).Limited()
  {
    if msgs == [] || TypeOf(msgs[0]).Limited() then 0 else 1 + FirstLimited(msgs[1..])
  }

  lemma ForwardAppend(a: seq<CosmosMsg>, b: seq<CosmosMsg>)
    ensures Forward(a + b) == Forward(a) + Forward(b)
  {
  }

  lemma ForwardFirst(msgs: seq<CosmosMsg>)
    requires msgs != []
    ensures Forward(msgs) == [Forwarded(msgs[0])] + Forward(msgs[1..])
  {
  }

  lemma {:induction false} CheckBatchInParts(cfg: Config, env: Env, a: seq<CosmosMsg>, b: seq<CosmosMsg>)
    ensures CheckBatch(cfg, env, a + b)
            == match CheckBatch(cfg, env, a)
               case Ok(first) => Preceded(first.sent, CheckBatch(first.cfg, env, b))
               case Err(e) => Err(e)
    decreases |a|
  {
    if a == [] {
      assert a + b == b;
      PrecededTwice([], [], CheckBatch(cfg, env, b));
    } else {
      assert (a + b)[1..] == a[1..] + b;
      var first := CheckMsg(cfg, env, a[0]);
      if first.Ok? {
        var sent := first.value.sent + [Forwarded(a[0])];
        CheckBatchInParts(first.value.cfg, env, a[1..], b);
        var rest := CheckBatch(first.value.cfg, env, a[1..]);
        if rest.Ok? {
          PrecededTwice(sent, rest.value.sent, CheckBatch(rest.value.cfg, env, b));
        }
      }
    }
  }

  lemma CheckMsgWithoutDebt(cfg: Config, env: Env, msg: CosmosMsg)
    requires cfg.uusdFeeDebt == 0 && CheckMsg(cfg, env, msg).Ok?
    ensures CheckMsg(cfg, env, msg).value.sent == [] && CheckMsg(cfg, env, msg).value.cfg.uusdFeeDebt == 0
  {
  }

  lemma {:induction false} CheckBatchWithoutDebt(cfg: Config, env: Env, msgs: seq<CosmosMsg>)
    requires cfg.uusdFeeDebt == 0 && CheckBatch(cfg, env, msgs).Ok?
    ensures CheckBatch(cfg, env, msgs).value.sent == Forward(msgs)
    ensures CheckBatch(cfg, env, msgs).value.cfg.uusdFeeDebt == 0
    decreases |msgs|
  {
    if msgs != [] {
      CheckMsgWithoutDebt(cfg, env, msgs[0]);
      CheckBatchWithoutDebt(CheckMsg(cfg, env, msgs[0]).value.cfg, env, msgs[1..]);
      ForwardFirst(msgs);
      assert [] + [Forwarded(msgs[0])] == [Forwarded(msgs[0])];
    }
  }

  lemma {:induction false} CheckBatchUnlimited(cfg: Config, env: Env, msgs: seq<CosmosMsg>)
    requires CheckBatch(cfg, env, msgs).Ok?
    requires forall i :: 0 <= i < |msgs| ==> !TypeOf(msgs[i]).Limited()
    ensures CheckBatch(cfg, env, msgs) == Ok(Outcome(cfg, Forward(msgs)))
    decreases |msgs|
  {
    if msgs != [] {
      CheckBatchUnlimited(cfg, env, msgs[1..]);
      ForwardFirst(msgs);
      assert [] + [Forwarded(msgs[0])] == [Forwarded(msgs[0])];
    }
  }

  lemma CheckMsgRepays(cfg: Config, env: Env, msg: CosmosMsg)
    requires cfg.uusdFeeDebt > 0 && CheckMsg(cfg, env, msg).Ok? && TypeOf(msg).Limited()
    ensures var coin := DebtCoin(cfg.MarketOn(env.dex), cfg.uusdFeeDebt, SpentFunds(msg));
            && coin.Some?
            && CheckMsg(cfg, env, msg).value.sent == [Repayment(RepayMsg(cfg, coin.value))]
            && CheckMsg(cfg, env, msg).value.cfg.uusdFeeDebt == 0
  {
  }

  lemma CheckBatchRepays(cfg: Config, env: Env, msgs: seq<CosmosMsg>)
    requires cfg.uusdFeeDebt > 0 && CheckBatch(cfg, env, msgs).Ok?
    requires msgs != [] && TypeOf(msgs[0]).Limited()
    ensures var coin := DebtCoin(cfg.MarketOn(env.dex), cfg.uusdFeeDebt, SpentFunds(msgs[0]));
            && coin.Some?
            && CheckBatch(cfg, env, msgs).value.sent == [Repayment(RepayMsg(cfg, coin.value))] + Forward(msgs)
            && CheckBatch(cfg, env, msgs).value.cfg.uusdFeeDebt == 0
  {
    var first := CheckMsg(cfg, env, msgs[0]).value;
    CheckMsgRepays(cfg, env, msgs[0]);
    CheckBatchWithoutDebt(first.cfg, env, msgs[1..]);
    ForwardFirst(msgs);
    assert first.sent + [Forwarded(msgs[0])] + Forward(msgs[1..]) == first.sent + Forward(msgs);
  }

  /**
   A checked batch sends out its own messages in order. If there is debt and a message that
   spends, one repayment goes out just before the first such message, to the repay wallet,
   in the first of its coins that can pay, and the debt is gone; else nothing is added.
   */
  lemma CheckBatchOutput(cfg: Config, env: Env, msgs: seq<CosmosMsg>)
    requires CheckBatch(cfg, env, msgs).Ok?
    ensures var Outcome(cfg', sent) := CheckBatch(cfg, env, msgs).value;
            var i := FirstLimited(msgs);
            if cfg.uusdFeeDebt == 0 || i == |msgs| then
              sent == Forward(msgs) && cfg'.uusdFeeDebt == cfg.uusdFeeDebt
            else
              var coin := DebtCoin(cfg.MarketOn(env.dex), cfg.uusdFeeDebt, SpentFunds(msgs[i]));
              && coin.Some?
              && sent == Forward(msgs[..i]) + ([Repayment(RepayMsg(cfg, coin.value))] + Forward(msgs[i..]))
              && cfg'.uusdFeeDebt == 0
  {
    var i := FirstLimited(msgs);
    if cfg.uusdFeeDebt == 0 {
      CheckBatchWithoutDebt(cfg, env, msgs);
    } else if i == |msgs| {
      CheckBatchUnlimited(cfg, env, msgs);
    } else {
      assert msgs == msgs[..i] + msgs[i..];
      CheckBatchInParts(cfg, env, msgs[..i], msgs[i..]);
      CheckBatchUnlimited(cfg, env, msgs[..i]);
      CheckBatchRepays(cfg, env, msgs[i..]);
    }
  }

  /** What is left of an output when the inserted messages are deleted. */
  function WithoutRepayments(sent: seq<Outgoing>): seq<CosmosMsg> {
    if sent == [] then []
    else (if sent[0].Forwarded? then [sent[0].msg] else []) + WithoutRepayments(sent[1..])
  }

  function CountRepayments(sent: seq<Outgoing>): nat {
    if sent == [] then 0 else (if sent[0].Repayment? then 1 else 0) + CountRepayments(sent[1..])
  }

  lemma {:induction false} WithoutRepaymentsAppend(a: seq<Outgoing>, b: seq<Outgoing>)
    ensures WithoutRepayments(a + b) == WithoutRepayments(a) + WithoutRepayments(b)
    ensures CountRepayments(a + b) == CountRepayments(a) + CountRepayments(b)
  {
    if a == [] {
      assert a + b == b;
    } else {
      assert (a + b)[0] == a[0] && (a + b)[1..] == a[1..] + b;
      WithoutRepaymentsAppend(a[1..], b);
      var own := if a[0].Forwarded? then [a[0].msg] else [];
      assert own + (WithoutRepayments(a[1..]) + WithoutRepayments(b))
             == own + WithoutRepayments(a[1..]) + WithoutRepayments(b);
    }
  }

  lemma {:induction false} WithoutRepaymentsForward(msgs: seq<CosmosMsg>)
    ensures WithoutRepayments(Forward(msgs)) == msgs && CountRepayments(Forward(msgs)) == 0
  {
    if msgs != [] {
      assert Forward(msgs)[1..] == Forward(msgs[1..]);
      WithoutRepaymentsForward(msgs[1..]);
    }
  }

  lemma OneRepaymentInside(a: seq<CosmosMsg>, repayment: CosmosMsg, b: seq<CosmosMsg>)
    ensures var sent := Forward(a) + ([Repayment(repayment)] + Forward(b));
            WithoutRepayments(sent) == a + b && CountRepayments(sent) == 1
  {
    var tail := [Repayment(repayment)] + Forward(b);
    assert tail[1..] == Forward(b);
    WithoutRepaymentsForward(a);
    WithoutRepaymentsForward(b);
    WithoutRepaymentsAppend(Forward(a), tail);
  }

  lemma CheckBatchConserves(cfg: Config, env: Env, msgs: seq<CosmosMsg>)
    requires CheckBatch(cfg, env, msgs).Ok?
    ensures var Outcome(cfg', sent) := CheckBatch(cfg, env, msgs).value;
            && WithoutRepayments(sent) == msgs
            && CountRepayments(sent) == if cfg.uusdFeeDebt > 0 && cfg'.uusdFeeDebt == 0 then 1 else 0
  {
    var i := FirstLimited(msgs);
    CheckBatchOutput(cfg, env, msgs);
    if cfg.uusdFeeDebt == 0 || i == |msgs| {
      WithoutRepaymentsForward(msgs);
    } else {
      var coin := DebtCoin(cfg.MarketOn(env.dex), cfg.uusdFeeDebt, SpentFunds(msgs[i])).value;
      OneRepaymentInside(msgs[..i], RepayMsg(cfg, coin), msgs[i..]);
      assert msgs == msgs[..i] + msgs[i..];
    }
  }

  /**
   A successful execute transaction sends out exactly its messages in order, with at most
   one repayment added, except on the authorized-contract shortcut: there only the first
   message goes out and the state does not change.
   */
  lemma MessagesAreConserved(cfg: Config, env: Env, msgs: seq<CosmosMsg>)
    requires Step(cfg, Tx(env, Execute(msgs))).Ok?
    ensures var Outcome(cfg', sent) := Apply(cfg, Tx(env, Execute(msgs)));
            if !Unchecked(cfg, env) && Shortcut(cfg, env.sender, msgs[0]) then
              sent == [Forwarded(msgs[0])] && cfg' == cfg
            else
              && WithoutRepayments(sent) == msgs
              && CountRepayments(sent) == if cfg.uusdFeeDebt > 0 && cfg'.uusdFeeDebt == 0 then 1 else 0
  {
    WithoutRepaymentsForward(msgs);
    if !Unchecked(cfg, env) && !Shortcut(cfg, env.sender, msgs[0]) {
      CheckBatchConserves(cfg, env, msgs);
    }
  }

  // ----- the query

  /**
   For a sender that is not the admin, sending coins succeeds exactly when the query says
   it can, the debt can be paid in one of the coins, a refill that is due can be computed,
   and the coins together, not only each one, fit in the limit.
   */
  lemma SendMatchesQuery(cfg: Config, env: Env, to: string, coins: seq<Coin>)
    requires !cfg.IsAdmin(env.sender)
    ensures var msgs := [Bank(BankMsg.Send(to, coins))];
            var m := cfg.MarketOn(env.dex);
            var wallet := cfg.GetWallet(env.sender);
            ExecuteExecute(cfg, env, msgs, false).Ok?
            <==> && QueryCanSpend(cfg, env, env.sender, msgs) == Ok(true)
                 && (cfg.uusdFeeDebt > 0 ==> DebtCoin(m, cfg.uusdFeeDebt, coins).Some?)
                 && wallet.Some?
                 && (wallet.value.ShouldReset(env.time) ==> wallet.value.ResetPeriod(env.time).Ok?)
                 && SumCharges(m, coins) <= Applicable(wallet.value, env.time)
  {
    var msgs := [Bank(BankMsg.Send(to, coins))];
    assert msgs[1..] == [];
    assert CheckMsg(cfg, env, msgs[0]) == CheckCoins(cfg, env, coins);
    assert CheckBatch(cfg, env, msgs).Ok? <==> CheckCoins(cfg, env, coins).Ok?;
    if cfg.IsActiveHotWallet(env.sender) {
      var w := cfg.GetWallet(env.sender).value;
      AccessIsExact(w, cfg.MarketOn(env.dex), env.time, coins);
      CheckSpendIsPerCoin(w, cfg.MarketOn(env.dex), coins, w.ShouldReset(env.time));
      EachChargeBelowSum(cfg.MarketOn(env.dex), coins);
    }
  }

  lemma {:induction false} EachChargeBelowSum(m: Market, coins: seq<Coin>)
    ensures forall coin :: coin in coins ==> Charge(m, coin) <= SumCharges(m, coins)
  {
    if coins != [] {
      EachChargeBelowSum(m, coins[1..]);
      assert forall coin :: coin in coins <==> coin == coins[0] || coin in coins[1..];
    }
  }

  /** With no debt and no failing refill, query and execution agree on at most one coin. */
  lemma QueryIsExactForOneCoin(cfg: Config, env: Env, to: string, coins: seq<Coin>)
    requires !cfg.IsAdmin(env.sender) && cfg.uusdFeeDebt == 0 && |coins| <= 1
    requires var wallet := cfg.GetWallet(env.sender);
             wallet.Some? && wallet.value.ShouldReset(env.time) ==> wallet.value.ResetPeriod(env.time).Ok?
    ensures var msgs := [Bank(BankMsg.Send(to, coins))];
            ExecuteExecute(cfg, env, msgs, false).Ok? <==> QueryCanSpend(cfg, env, env.sender, msgs) == Ok(true)
  {
    SendMatchesQuery(cfg, env, to, coins);
    var w := cfg.GetWallet(env.sender);
    if w.Some? && coins != [] {
      assert coins[0] in coins && coins[1..] == [];
      CheckSpendIsPerCoin(w.value, cfg.MarketOn(env.dex), coins, w.value.ShouldReset(env.time));
    }
  }

  /**
   Of the single messages that a sender other than the admin gets executed, the query admits
   exactly the bank sends and, for a valid address, the shortcut calls: it knows neither
   burns nor CW20 calls that are charged.
   */
  lemma QueryAdmitsSendsAndShortcuts(cfg: Config, env: Env, msg: CosmosMsg)
    requires !cfg.IsAdmin(env.sender)
    ensures ExecuteExecute(cfg, env, [msg], false).Ok? ==>
              (QueryCanSpend(cfg, env, env.sender, [msg]) == Ok(true)
               <==> (msg.Bank? && msg.bank.Send?) || (Shortcut(cfg, env.sender, msg) && env.validAddr(env.sender)))
  {
    if msg.Bank? && msg.bank.Send? {
      SendMatchesQuery(cfg, env, msg.bank.toAddress, msg.bank.amount);
    }
  }

  /** The query always admits the admin; the send then fails exactly when a debt cannot be paid. */
  lemma AdminSendNeedsPayableDebt(cfg: Config, env: Env, to: string, coins: seq<Coin>)
    requires cfg.IsAdmin(env.sender)
    ensures var msgs := [Bank(BankMsg.Send(to, coins))];
            && QueryCanSpend(cfg, env, env.sender, msgs) == Ok(true)
            && (ExecuteExecute(cfg, env, msgs, false).Ok?
                <==> cfg.uusdFeeDebt == 0 || DebtCoin(cfg.MarketOn(env.dex), cfg.uusdFeeDebt, coins).Some?)
  {
    var msgs := [Bank(BankMsg.Send(to, coins))];
    assert msgs[1..] == [];
    assert CheckMsg(cfg, env, msgs[0]) == CheckCoins(cfg, env, coins);
    assert CheckBatch(cfg, env, msgs).Ok? <==> CheckCoins(cfg, env, coins).Ok?;
  }

  /** The query also answers for delegations, but only an admin without debt can execute one. */
  lemma DelegationsAreNotExecuted(cfg: Config, env: Env, validator: string, amount: Coin)
    ensures ExecuteExecute(cfg, env, [Delegate(validator, amount)], false).Ok? <==> Unchecked(cfg, env)
    ensures !cfg.IsAdmin(env.sender)
            ==> QueryCanSpend(cfg, env, env.sender, [Delegate(validator, amount)])
                == QueryCanSpend(cfg, env, env.sender, [Bank(BankMsg.Send(validator, [amount]))])
  {
  }

  // ----- the asset of a repayment

  /** The coin a debt is repaid in comes from the first spent coin that can pay. */
  lemma {:induction false} DebtCoinIsFirst(m: Market, debt: U128, coins: seq<Coin>)
    ensures DebtCoin(m, debt, coins).None?
            <==> forall i :: 0 <= i < |coins| ==> m.ConvertDebtToAssetSpent(debt, coins[i].denom).Err?
    ensures DebtCoin(m, debt, coins).Some? ==>
              exists i :: 0 <= i < |coins|
                          && m.ConvertDebtToAssetSpent(debt, coins[i].denom) == Ok(DebtCoin(m, debt, coins).value)
                          && forall j :: 0 <= j < i ==> m.ConvertDebtToAssetSpent(debt, coins[j].denom).Err?
  {
    if coins != [] && m.ConvertDebtToAssetSpent(debt, coins[0].denom).Err? {
      DebtCoinIsFirst(m, debt, coins[1..]);
      assert forall i :: 1 <= i < |coins| ==> coins[i] == coins[1..][i - 1];
      if DebtCoin(m, debt, coins).Some? {
        var i :| 0 <= i < |coins[1..]|
                 && m.ConvertDebtToAssetSpent(debt, coins[1..][i].denom) == Ok(DebtCoin(m, debt, coins).value)
                 && forall j :: 0 <= j < i ==> m.ConvertDebtToAssetSpent(debt, coins[1..][j].denom).Err?;
        assert coins[i + 1] == coins[1..][i];
      }
    }
  }

  /** Coin `i` of a spend is the first that can pay a debt on the built-in table, and pays `paid`. */
  predicate PaysFirst(network: string, dex: Dex, debt: U128, coins: seq<Coin>, i: nat, paid: Coin) {
    && i < |coins| && paid.denom == coins[i].denom
    && BuiltInRepayment(network, dex, debt, coins[i].denom) == Ok(paid)
    && forall j :: 0 <= j < i ==> BuiltInRepayment(network, dex, debt, coins[j].denom).Err?
  }

  /** No coin can pay a debt on the built-in table. */
  predicate NonePays(network: string, dex: Dex, debt: U128, coins: seq<Coin>) {
    forall i :: 0 <= i < |coins| ==> BuiltInRepayment(network, dex, debt, coins[i].denom).Err?
  }

  /** What each coin pays is its built-in repayment, in its own denom. */
  lemma CoinsPayBuiltIn(network: string, dex: Dex, debt: U128, coins: seq<Coin>)
    requires PairsOf(network).Ok?
    ensures forall i :: 0 <= i < |coins| ==>
              var paid := Market(PairsOf(network).value, dex).ConvertDebtToAssetSpent(debt, coins[i].denom);
              && paid == BuiltInRepayment(network, dex, debt, coins[i].denom)
              && (paid.Ok? ==> paid.value.denom == coins[i].denom)
  {
    forall i | 0 <= i < |coins|
      ensures var paid := Market(PairsOf(network).value, dex).ConvertDebtToAssetSpent(debt, coins[i].denom);
              && paid == BuiltInRepayment(network, dex, debt, coins[i].denom)
              && (paid.Ok? ==> paid.value.denom == coins[i].denom)
    {
      DebtIsRepaidInAssetSpent(network, dex, debt, coins[i].denom);
    }
  }

  lemma DebtCoinOnBuiltInTable(network: string, dex: Dex, debt: U128, coins: seq<Coin>)
    requires PairsOf(network).Ok?
    ensures match DebtCoin(Market(PairsOf(network).value, dex), debt, coins)
            case None => NonePays(network, dex, debt, coins)
            case Some(paid) => exists i: nat :: PaysFirst(network, dex, debt, coins, i, paid)
  {
    var m := Market(PairsOf(network).value, dex);
    DebtCoinIsFirst(m, debt, coins);
    CoinsPayBuiltIn(network, dex, debt, coins);
    match DebtCoin(m, debt, coins)
    case None =>
    case Some(paid) =>
      var i: nat :| i < |coins| && m.ConvertDebtToAssetSpent(debt, coins[i].denom) == Ok(paid)
                    && forall j :: 0 <= j < i ==> m.ConvertDebtToAssetSpent(debt, coins[j].denom).Err?;
      assert PaysFirst(network, dex, debt, coins, i, paid);
  }

  lemma SettledOutput(cfg: Config, env: Env, coins: seq<Coin>)
    requires cfg.uusdFeeDebt > 0
    ensures match DebtCoin(cfg.MarketOn(env.dex), cfg.uusdFeeDebt, coins)
            case None => CheckCoins(cfg, env, coins) == Err(UnableToRepayDebt(cfg.uusdFeeDebt))
            case Some(paid) =>
              CheckCoins(cfg, env, coins).Ok? ==>
                CheckCoins(cfg, env, coins).value.sent
                == [Repayment(Bank(BankMsg.Send(cfg.feeLendRepayWallet, [paid])))]
  {
  }

  /**
   On a built-in pair table, a spend that clears a debt repays it in the asset of its first
   coin that can pay, in exactly the amount that the exchange answers for the debt, and in
   USDC exactly; if no coin can pay, it fails.
   */
  lemma RepaymentAsset(cfg: Config, env: Env, coins: seq<Coin>)
    requires cfg.uusdFeeDebt > 0 && PairsOf(cfg.homeNetwork) == Ok(cfg.pairContracts)
    ensures var network, debt := cfg.homeNetwork, cfg.uusdFeeDebt;
            match DebtCoin(cfg.MarketOn(env.dex), debt, coins)
            case None =>
              && NonePays(network, env.dex, debt, coins)
              && CheckCoins(cfg, env, coins) == Err(UnableToRepayDebt(debt))
            case Some(paid) =>
              && (exists i: nat :: PaysFirst(network, env.dex, debt, coins, i, paid))
              && (CheckCoins(cfg, env, coins).Ok? ==>
                    CheckCoins(cfg, env, coins).value.sent
                    == [Repayment(Bank(BankMsg.Send(cfg.feeLendRepayWallet, [paid])))])
  {
    DebtCoinOnBuiltInTable(cfg.homeNetwork, env.dex, cfg.uusdFeeDebt, coins);
    SettledOutput(cfg, env, coins);
  }
}
