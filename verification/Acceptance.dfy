/** Exactly which batches pass the check, for every sender, wallet, debt and price. */
module Acceptance {
  import opened Prelude
  import opened Calendar
  import opened Pricing
  import opened HotWallets
  import opened SpendProperties
  import opened Submsgs
  import opened States
  import opened Machine
  import opened Frames
  import opened ExecuteProperties

  // ----- the admin

  predicate AllKnown(msgs: seq<CosmosMsg>) {
    forall i :: 0 <= i < |msgs| ==> !TypeOf(msgs[i]).Unknown?
  }

  /** An admin without debt passes the check with every message whose type is known. */
  lemma {:induction false} AdminIsForwarded(cfg: Config, env: Env, msgs: seq<CosmosMsg>)
    requires Unchecked(cfg, env)
    ensures CheckBatch(cfg, env, msgs).Ok? <==> AllKnown(msgs)
    ensures AllKnown(msgs) ==> CheckBatch(cfg, env, msgs) == Ok(Outcome(cfg, Forward(msgs)))
    decreases |msgs|
  {
    if msgs != [] {
      AdminIsForwarded(cfg, env, msgs[1..]);
      ForwardFirst(msgs);
      assert [] + [Forwarded(msgs[0])] == [Forwarded(msgs[0])];
      assert AllKnown(msgs) <==> !TypeOf(msgs[0]).Unknown? && AllKnown(msgs[1..]);
    }
  }

  /** The debt, if a message of the batch has to pay it, can be paid by the first that spends. */
  predicate DebtIsPayable(cfg: Config, env: Env, msgs: seq<CosmosMsg>) {
    var i := FirstLimited(msgs);
    i == |msgs| || DebtCoin(cfg.MarketOn(env.dex), cfg.uusdFeeDebt, SpentFunds(msgs[i])).Some?
  }

  /** An admin with debt passes the check exactly with known messages that can pay it. */
  lemma {:induction false} AdminWithDebt(cfg: Config, env: Env, msgs: seq<CosmosMsg>)
    requires cfg.IsAdmin(env.sender) && cfg.uusdFeeDebt > 0
    ensures CheckBatch(cfg, env, msgs).Ok? <==> AllKnown(msgs) && DebtIsPayable(cfg, env, msgs)
    decreases |msgs|
  {
    if msgs != [] {
      assert AllKnown(msgs) <==> !TypeOf(msgs[0]).Unknown? && AllKnown(msgs[1..]);
      if TypeOf(msgs[0]).Limited() {
        if CheckMsg(cfg, env, msgs[0]).Ok? {
          CheckMsgRepays(cfg, env, msgs[0]);
          CheckMsgOnlySpends(cfg, env, msgs[0]);
          AdminIsForwarded(CheckMsg(cfg, env, msgs[0]).value.cfg, env, msgs[1..]);
        }
      } else if !TypeOf(msgs[0]).Unknown? {
        AdminWithDebt(cfg, env, msgs[1..]);
        assert FirstLimited(msgs) == 1 + FirstLimited(msgs[1..]);
      }
    }
  }

  // ----- a hot wallet

  predicate AllLimited(msgs: seq<CosmosMsg>) {
    forall i :: 0 <= i < |msgs| ==> TypeOf(msgs[i]).Limited()
  }

  /** The coins of all messages, in order. */
  function AllSpent(msgs: seq<CosmosMsg>): seq<Coin> {
    if msgs == [] then [] else SpentFunds(msgs[0]) + AllSpent(msgs[1..])
  }

  /** The limit allows the batch: all of its coins together or, where every check refills, message by message. */
  predicate LimitAllows(w: Wallet, m: Market, now: Timestamp, msgs: seq<CosmosMsg>) {
    if RefillsAgain(w, now) then forall msg :: msg in msgs ==> w.Access(m, now, SpentFunds(msg)).Ok?
    else w.Access(m, now, AllSpent(msgs)).Ok?
  }

  /** In numbers: a due refill can be computed, every coin converts, and the charges fit. */
  lemma LimitAllowsInCharges(w: Wallet, m: Market, now: Timestamp, msgs: seq<CosmosMsg>)
    requires msgs != []
    ensures LimitAllows(w, m, now, msgs)
            <==> && (w.ShouldReset(now) ==> w.ResetPeriod(now).Ok?)
                 && if RefillsAgain(w, now) then
                      forall msg :: msg in msgs ==>
                        AllConvert(m, SpentFunds(msg)) && SumCharges(m, SpentFunds(msg)) <= w.Amount()
                    else
                      && AllConvert(m, AllSpent(msgs)) && (AllSpent(msgs) == [] || w.spendLimits != [])
                      && SumCharges(m, AllSpent(msgs)) <= Applicable(w, now)
  {
    if RefillsAgain(w, now) {
      assert msgs[0] in msgs;
      forall msg | msg in msgs
        ensures w.Access(m, now, SpentFunds(msg)).Ok?
                <==> && w.ResetPeriod(now).Ok?
                     && AllConvert(m, SpentFunds(msg)) && SumCharges(m, SpentFunds(msg)) <= w.Amount()
      {
        AccessIsExact(w, m, now, SpentFunds(msg));
      }
    } else {
      AccessIsExact(w, m, now, AllSpent(msgs));
    }
  }

  /** The wallet that a batch leaves: one access with all of its coins or, where every check refills, the last. */
  function Charged(w: Wallet, m: Market, now: Timestamp, msgs: seq<CosmosMsg>): Result<Wallet>
    requires msgs != []
  {
    w.Access(m, now, if RefillsAgain(w, now) then SpentFunds(msgs[|msgs| - 1]) else AllSpent(msgs))
  }

  lemma LimitAllowsFirstPart(w: Wallet, m: Market, now: Timestamp, msgs: seq<CosmosMsg>)
    requires msgs != [] && !RefillsAgain(w, now)
    ensures var first, all := w.Access(m, now, SpentFunds(msgs[0])), w.Access(m, now, AllSpent(msgs));
            if first.Err? then all == first
            else
              && !RefillsAgain(first.value, now)
              && all == if msgs[1..] == [] then first else first.value.Access(m, now, AllSpent(msgs[1..]))
  {
    AccessInParts(w, m, now, SpentFunds(msgs[0]), AllSpent(msgs[1..]));
    assert msgs[1..] == [] ==> AllSpent(msgs) == SpentFunds(msgs[0]);
  }

  lemma EachMessageAgain(w: Wallet, m: Market, now: Timestamp, first: seq<Coin>, msgs: seq<CosmosMsg>)
    requires RefillsAgain(w, now) && w.Access(m, now, first).Ok?
    ensures var next := w.Access(m, now, first).value;
            && RefillsAgain(next, now)
            && forall msg :: msg in msgs ==> next.Access(m, now, SpentFunds(msg)) == w.Access(m, now, SpentFunds(msg))
  {
    AccessAgain(w, m, now, first, []);
    forall msg | msg in msgs
      ensures w.Access(m, now, first).value.Access(m, now, SpentFunds(msg)) == w.Access(m, now, SpentFunds(msg))
    {
      AccessAgain(w, m, now, first, SpentFunds(msg));
    }
  }

  lemma LimitAllowsEach(w: Wallet, m: Market, now: Timestamp, msgs: seq<CosmosMsg>)
    requires msgs != [] && RefillsAgain(w, now) && w.Access(m, now, SpentFunds(msgs[0])).Ok?
    ensures var next, rest := w.Access(m, now, SpentFunds(msgs[0])).value, msgs[1..];
            && (LimitAllows(w, m, now, msgs) <==> LimitAllows(next, m, now, rest))
            && (rest != [] ==> Charged(w, m, now, msgs) == Charged(next, m, now, rest))
  {
    EachMessageAgain(w, m, now, SpentFunds(msgs[0]), msgs[1..]);
    assert forall msg :: msg in msgs <==> msg == msgs[0] || msg in msgs[1..];
    assert msgs[1..] != [] ==> msgs[|msgs| - 1] == msgs[1..][|msgs| - 2];
  }

  lemma LimitAllowsFirst(w: Wallet, m: Market, now: Timestamp, msgs: seq<CosmosMsg>)
    requires msgs != []
    ensures var first := w.Access(m, now, SpentFunds(msgs[0]));
            && (LimitAllows(w, m, now, msgs)
                <==> first.Ok? && (msgs[1..] == [] || LimitAllows(first.value, m, now, msgs[1..])))
            && (first.Ok? ==> Charged(w, m, now, msgs)
                              == if msgs[1..] == [] then first else Charged(first.value, m, now, msgs[1..]))
  {
    if !RefillsAgain(w, now) {
      LimitAllowsFirstPart(w, m, now, msgs);
    } else if w.Access(m, now, SpentFunds(msgs[0])).Ok? {
      LimitAllowsEach(w, m, now, msgs);
    }
  }

  /** One message of a listed sender other than the admin: settle the debt, then one access. */
  lemma CheckMsgIsAccess(cfg: Config, env: Env, msg: CosmosMsg)
    requires !cfg.IsAdmin(env.sender) && cfg.IsActiveHotWallet(env.sender)
    ensures var m, access := cfg.MarketOn(env.dex),
                             cfg.GetWallet(env.sender).value.Access(cfg.MarketOn(env.dex), env.time, SpentFunds(msg));
            && (CheckMsg(cfg, env, msg).Ok?
                <==> && TypeOf(msg).Limited() && access.Ok?
                     && (cfg.uusdFeeDebt > 0 ==> DebtCoin(m, cfg.uusdFeeDebt, SpentFunds(msg)).Some?))
            && (CheckMsg(cfg, env, msg).Ok? ==>
                  var cfg' := CheckMsg(cfg, env, msg).value.cfg;
                  && cfg'.uusdFeeDebt == 0 && !cfg'.IsAdmin(env.sender) && cfg'.IsActiveHotWallet(env.sender)
                  && cfg'.MarketOn(env.dex) == m && Ok(cfg'.GetWallet(env.sender).value) == access)
  {
    if CheckMsg(cfg, env, msg).Ok? {
      CheckMsgOnlySpends(cfg, env, msg);
      OnlySpentKeepsAddresses(cfg, CheckMsg(cfg, env, msg).value.cfg, env.sender, env.sender);
    }
  }

  /**
   A listed sender other than the admin passes the check exactly with messages that all
   spend, of which the first can pay the debt, and whose coins together fit in one access;
   the wallet is then left as by that one access. Where every check refills again, each
   message is measured against the whole amount instead.
   */
  lemma {:induction false} BatchIsOneAccess(cfg: Config, env: Env, msgs: seq<CosmosMsg>)
    requires !cfg.IsAdmin(env.sender) && cfg.IsActiveHotWallet(env.sender) && msgs != []
    ensures var w, m := cfg.GetWallet(env.sender).value, cfg.MarketOn(env.dex);
            && (CheckBatch(cfg, env, msgs).Ok?
                <==> && AllLimited(msgs)
                     && (cfg.uusdFeeDebt > 0 ==> DebtCoin(m, cfg.uusdFeeDebt, SpentFunds(msgs[0])).Some?)
                     && LimitAllows(w, m, env.time, msgs))
            && (CheckBatch(cfg, env, msgs).Ok? ==>
                  var cfg' := CheckBatch(cfg, env, msgs).value.cfg;
                  && cfg'.IsActiveHotWallet(env.sender)
                  && Charged(w, m, env.time, msgs) == Ok(cfg'.GetWallet(env.sender).value))
    decreases |msgs|
  {
    CheckMsgIsAccess(cfg, env, msgs[0]);
    LimitAllowsFirst(cfg.GetWallet(env.sender).value, cfg.MarketOn(env.dex), env.time, msgs);
    assert AllLimited(msgs) <==> TypeOf(msgs[0]).Limited() && AllLimited(msgs[1..]);
    if CheckMsg(cfg, env, msgs[0]).Ok? && msgs[1..] != [] {
      BatchIsOneAccess(CheckMsg(cfg, env, msgs[0]).value.cfg, env, msgs[1..]);
    }
  }

  // ----- every sender

  /** What lets a batch through the check, as can be seen before it is sent. */
  predicate Passes(cfg: Config, env: Env, msgs: seq<CosmosMsg>) {
    || msgs == []
    || (&& (cfg.uusdFeeDebt > 0 ==> DebtIsPayable(cfg, env, msgs))
        && if cfg.IsAdmin(env.sender) then AllKnown(msgs)
           else && cfg.IsActiveHotWallet(env.sender) && AllLimited(msgs)
                && LimitAllows(cfg.GetWallet(env.sender).value, cfg.MarketOn(env.dex), env.time, msgs))
  }

  lemma BatchPasses(cfg: Config, env: Env, msgs: seq<CosmosMsg>)
    ensures CheckBatch(cfg, env, msgs).Ok? <==> Passes(cfg, env, msgs)
  {
    if msgs != [] {
      if cfg.IsAdmin(env.sender) {
        if cfg.uusdFeeDebt == 0 {
          AdminIsForwarded(cfg, env, msgs);
        } else {
          AdminWithDebt(cfg, env, msgs);
        }
      } else if cfg.IsActiveHotWallet(env.sender) {
        BatchIsOneAccess(cfg, env, msgs);
      }
    }
  }

  /**
   An execute, simulated or not, succeeds exactly for an admin without debt, for a batch
   that starts with a shortcut call, and for a nonempty batch that passes the check.
   */
  lemma ExecutePasses(cfg: Config, env: Env, msgs: seq<CosmosMsg>, simulation: bool)
    ensures ExecuteExecute(cfg, env, msgs, simulation).Ok?
            <==> || Unchecked(cfg, env)
                 || (msgs != [] && (Shortcut(cfg, env.sender, msgs[0]) || Passes(cfg, env, msgs)))
  {
    BatchPasses(cfg, env, msgs);
  }

  /** The query `CanExecute`, whatever the message. */
  function QueryCanExecute(cfg: Config, sender: string, msg: CosmosMsg): bool {
    cfg.IsAdmin(sender)
  }

  /**
   The query admits exactly the admin; what it admits executes exactly without debt, as a
   shortcut, or if its type is known and, if it spends, one of its coins can pay.
   */
  lemma CanExecuteNeedsPayableDebt(cfg: Config, env: Env, msg: CosmosMsg)
    ensures QueryCanExecute(cfg, env.sender, msg) <==> env.sender == cfg.admin
    ensures QueryCanExecute(cfg, env.sender, msg) ==>
              (ExecuteExecute(cfg, env, [msg], false).Ok?
               <==> || cfg.uusdFeeDebt == 0 || Shortcut(cfg, env.sender, msg)
                    || (&& !TypeOf(msg).Unknown?
                        && (TypeOf(msg).Limited() ==>
                              DebtCoin(cfg.MarketOn(env.dex), cfg.uusdFeeDebt, SpentFunds(msg)).Some?)))
  {
    ExecutePasses(cfg, env, [msg], false);
    assert FirstLimited([msg]) == if TypeOf(msg).Limited() then 0 else 1;
    assert AllKnown([msg]) <==> !TypeOf([msg][0]).Unknown?;
  }

  lemma {:induction false} AllSpentHolds(msgs: seq<CosmosMsg>, i: nat, coin: Coin)
    requires i < |msgs| && coin in SpentFunds(msgs[i])
    ensures coin in AllSpent(msgs)
  {
    if i > 0 {
      AllSpentHolds(msgs[1..], i - 1, coin);
    }
  }

  lemma UnpricedCoinIsRefused(w: Wallet, m: Market, now: Timestamp, msgs: seq<CosmosMsg>, i: nat, coin: Coin)
    requires i < |msgs| && coin in SpentFunds(msgs[i]) && m.GetConvertedToUsdc(coin, false).Err?
    ensures !LimitAllows(w, m, now, msgs)
  {
    AllSpentHolds(msgs, i, coin);
    AccessIsExact(w, m, now, SpentFunds(msgs[i]));
    AccessIsExact(w, m, now, AllSpent(msgs));
  }

  lemma ContractCallIsRefused(cfg: Config, env: Env, msgs: seq<CosmosMsg>, i: nat)
    requires PairsOf(cfg.homeNetwork) == Ok(cfg.pairContracts) && !cfg.IsAdmin(env.sender)
    requires i < |msgs| && msgs[i].WasmExecute? && !IsNamedDenom(msgs[i].contractAddr)
    ensures !Passes(cfg, env, msgs)
  {
    if TypeOf(msgs[i]).Limited() && cfg.IsActiveHotWallet(env.sender) {
      var coin := Coin(msgs[i].contractAddr, TokensSpent(msgs[i].payload.call).value);
      TokensHaveNoPrice(cfg.homeNetwork, env.dex, coin.denom, coin.amount, 0);
      UnpricedCoinIsRefused(cfg.GetWallet(env.sender).value, cfg.MarketOn(env.dex), env.time, msgs, i, coin);
    }
  }

  /**
   On a built-in pair table no contract call of a hot wallet ever passes the check, unless
   the contract has the name of a denom: a batch with such a call succeeds exactly when it
   starts with a shortcut call.
   */
  lemma ContractCallsNeedShortcut(cfg: Config, env: Env, msgs: seq<CosmosMsg>, i: nat, simulation: bool)
    requires PairsOf(cfg.homeNetwork) == Ok(cfg.pairContracts) && !cfg.IsAdmin(env.sender)
    requires i < |msgs| && msgs[i].WasmExecute? && !IsNamedDenom(msgs[i].contractAddr)
    ensures ExecuteExecute(cfg, env, msgs, simulation).Ok? <==> Shortcut(cfg, env.sender, msgs[0])
  {
    ExecutePasses(cfg, env, msgs, simulation);
    ContractCallIsRefused(cfg, env, msgs, i);
  }
}
