/**
 What every entry point does, in terms of the stored fields, the messages and the
 exchange's answers: exactly when it succeeds, the whole new state, and what is sent out.
 */
module EntryPoints {
  import opened Prelude
  import opened Calendar
  import opened Pricing
  import opened HotWallets
  import opened SpendProperties
  import opened Submsgs
  import opened States
  import opened Machine
  import opened Frames
  import opened ExecuteProperties
  import opened Acceptance

  // ----- roles and prices

  predicate IsListed(ws: seq<Wallet>, addr: string) {
    exists w :: w in ws && w.address == addr
  }

  /** A call of one of the two token contracts without funds. */
  predicate CallsTokenContract(msg: CosmosMsg) {
    && msg.WasmExecute? && msg.funds == []
    && (msg.contractAddr == DRINK_CONTRACT || msg.contractAddr == BOTTLE_CONTRACT)
  }

  /** Roles are the stored addresses, a wallet is the first with its address, prices come from the stored table. */
  lemma RolesAndPrices(cfg: Config, addr: string, dex: Dex)
    ensures cfg.IsAdmin(addr) <==> addr == cfg.admin
    ensures cfg.IsPending(addr) <==> addr == cfg.pending
    ensures cfg.GetWallet(addr).Some? <==> IsListed(cfg.hotWallets, addr)
    ensures cfg.GetWallet(addr).Some? ==>
              exists i :: 0 <= i < |cfg.hotWallets| && cfg.hotWallets[i] == cfg.GetWallet(addr).value
                          && cfg.hotWallets[i].address == addr
                          && forall j :: 0 <= j < i ==> cfg.hotWallets[j].address != addr
    ensures PairsOf(cfg.homeNetwork) == Ok(cfg.pairContracts)
            ==> cfg.MarketOn(dex) == Market(PairsOf(cfg.homeNetwork).value, dex)
  {
    ListedMeans(cfg, addr);
  }

  lemma ListedMeans(cfg: Config, addr: string)
    ensures cfg.IsActiveHotWallet(addr) <==> IsListed(cfg.hotWallets, addr)
  {
    var i := FindWallet(cfg.hotWallets, addr);
    assert i < |cfg.hotWallets| ==> cfg.hotWallets[i] in cfg.hotWallets;
  }

  lemma ShortcutMeans(cfg: Config, addr: string, msg: CosmosMsg)
    ensures Shortcut(cfg, addr, msg) <==> CallsTokenContract(msg) && IsListed(cfg.hotWallets, addr)
  {
    ListedMeans(cfg, addr);
  }

  /** The charges for coins at their built-in prices: each USDC amount in its low 64 bits. */
  function BuiltInCharges(network: string, dex: Dex, coins: seq<Coin>): nat {
    if coins == [] then 0
    else
      (match BuiltInPrice(network, dex, coins[0])
       case Ok(usdc) => usdc.amount % TWO_64
       case Err(_) => 0)
      + BuiltInCharges(network, dex, coins[1..])
  }

  lemma {:induction false} ChargesAreBuiltIn(cfg: Config, dex: Dex, coins: seq<Coin>)
    requires PairsOf(cfg.homeNetwork) == Ok(cfg.pairContracts)
    ensures AllConvert(cfg.MarketOn(dex), coins)
            <==> forall coin :: coin in coins ==> BuiltInPrice(cfg.homeNetwork, dex, coin).Ok?
    ensures SumCharges(cfg.MarketOn(dex), coins) == BuiltInCharges(cfg.homeNetwork, dex, coins)
  {
    if coins != [] {
      ConversionIsBuiltInPrice(cfg.homeNetwork, dex, coins[0]);
      ChargesAreBuiltIn(cfg, dex, coins[1..]);
      assert forall coin :: coin in coins <==> coin == coins[0] || coin in coins[1..];
    }
  }

  // ----- the transaction boundary

  /** A transaction has the effect of its call, or none at all. */
  lemma AllOrNothing(cfg: Config, tx: Tx)
    ensures Apply(cfg, tx) == if Step(cfg, tx).Ok? then Step(cfg, tx).value else Outcome(cfg, [])
  {
  }

  // ----- executing

  /** The wallets after a batch that passed the check: the admin's batch charges none, another's its own. */
  function WalletsAfter(cfg: Config, env: Env, msgs: seq<CosmosMsg>): seq<Wallet>
    requires msgs != [] && Passes(cfg, env, msgs)
  {
    if env.sender == cfg.admin then cfg.hotWallets
    else
      var i := FindWallet(cfg.hotWallets, env.sender);
      match Charged(cfg.hotWallets[i], cfg.MarketOn(env.dex), env.time, msgs)
      case Ok(w) => cfg.hotWallets[i := w]
      case Err(_) => cfg.hotWallets
  }

  /** What a batch that passed the check sends out, the repayment of a debt included. */
  function SentAfter(cfg: Config, env: Env, msgs: seq<CosmosMsg>): seq<Outgoing> {
    var i := FirstLimited(msgs);
    if cfg.uusdFeeDebt == 0 || i == |msgs| then Forward(msgs)
    else
      match DebtCoin(cfg.MarketOn(env.dex), cfg.uusdFeeDebt, SpentFunds(msgs[i]))
      case Some(coin) =>
        Forward(msgs[..i])
        + ([Repayment(Bank(BankMsg.Send(cfg.feeLendRepayWallet, [coin])))] + Forward(msgs[i..]))
      case None => Forward(msgs)
  }

  lemma WalletsAfterBatch(cfg: Config, env: Env, msgs: seq<CosmosMsg>)
    requires msgs != [] && CheckBatch(cfg, env, msgs).Ok? && Passes(cfg, env, msgs)
    ensures CheckBatch(cfg, env, msgs).value.cfg.hotWallets == WalletsAfter(cfg, env, msgs)
  {
    var cfg' := CheckBatch(cfg, env, msgs).value.cfg;
    CheckBatchOnlySpends(cfg, env, msgs);
    if env.sender != cfg.admin {
      OnlySpentKeepsAddresses(cfg, cfg', env.sender, env.sender);
      BatchIsOneAccess(cfg, env, msgs);
    }
  }

  lemma CheckedBatchIsExact(cfg: Config, env: Env, msgs: seq<CosmosMsg>)
    requires msgs != [] && Passes(cfg, env, msgs)
    ensures var left := if FirstLimited(msgs) == |msgs| then cfg.uusdFeeDebt else 0;
            CheckBatch(cfg, env, msgs)
            == Ok(Outcome(cfg.(uusdFeeDebt := left, hotWallets := WalletsAfter(cfg, env, msgs)),
                          SentAfter(cfg, env, msgs)))
  {
    BatchPasses(cfg, env, msgs);
    WalletsAfterBatch(cfg, env, msgs);
    CheckBatchOnlySpends(cfg, env, msgs);
    CheckBatchOutput(cfg, env, msgs);
  }

  /** A batch that starts with a call of a token contract by a listed wallet. */
  predicate TakesShortcut(cfg: Config, sender: string, msgs: seq<CosmosMsg>) {
    msgs != [] && CallsTokenContract(msgs[0]) && IsListed(cfg.hotWallets, sender)
  }

  lemma ExecuteUnchecked(cfg: Config, env: Env, msgs: seq<CosmosMsg>, simulation: bool)
    ensures cfg.uusdFeeDebt == 0 && env.sender == cfg.admin ==>
              ExecuteExecute(cfg, env, msgs, simulation) == Ok(Outcome(cfg, if simulation then [] else Forward(msgs)))
    ensures !(cfg.uusdFeeDebt == 0 && env.sender == cfg.admin) && TakesShortcut(cfg, env.sender, msgs) ==>
              ExecuteExecute(cfg, env, msgs, simulation) == Ok(Outcome(cfg, [Forwarded(msgs[0])]))
  {
    if msgs != [] {
      ShortcutMeans(cfg, env.sender, msgs[0]);
    }
  }

  lemma ExecuteChecked(cfg: Config, env: Env, msgs: seq<CosmosMsg>, simulation: bool)
    requires !(cfg.uusdFeeDebt == 0 && env.sender == cfg.admin) && !TakesShortcut(cfg, env.sender, msgs)
    ensures var result := ExecuteExecute(cfg, env, msgs, simulation);
            var left := if FirstLimited(msgs) == |msgs| then cfg.uusdFeeDebt else 0;
            && (result.Ok? <==> msgs != [] && Passes(cfg, env, msgs))
            && (result.Ok? ==>
                  result.value == Outcome(cfg.(uusdFeeDebt := left, hotWallets := WalletsAfter(cfg, env, msgs)),
                                          if simulation then [] else SentAfter(cfg, env, msgs)))
  {
    if msgs != [] {
      ShortcutMeans(cfg, env.sender, msgs[0]);
      BatchPasses(cfg, env, msgs);
      if Passes(cfg, env, msgs) {
        CheckedBatchIsExact(cfg, env, msgs);
      }
    }
  }

  /**
   An execute succeeds exactly for an admin without debt, as a shortcut call of a listed
   wallet, or with a nonempty batch that passes. Then: the admin's messages go out as they
   are; the shortcut's first message goes out alone; a batch goes out in order with the
   debt's repayment before its first spending message, which clears the debt, and is
   charged to the sender's wallet. A simulation differs in the output only: it sends out
   nothing but the shortcut call.
   */
  lemma ExecuteIsExact(cfg: Config, env: Env, msgs: seq<CosmosMsg>, simulation: bool)
    ensures var tx := Tx(env, if simulation then SimExecute(msgs) else Execute(msgs));
            var free := cfg.uusdFeeDebt == 0 && env.sender == cfg.admin;
            var shortcut := TakesShortcut(cfg, env.sender, msgs);
            var left := if FirstLimited(msgs) == |msgs| then cfg.uusdFeeDebt else 0;
            && (Step(cfg, tx).Ok? <==> free || shortcut || (msgs != [] && Passes(cfg, env, msgs)))
            && (Step(cfg, tx).Ok? ==>
                  Step(cfg, tx).value
                  == if free then Outcome(cfg, if simulation then [] else Forward(msgs))
                     else if shortcut then Outcome(cfg, [Forwarded(msgs[0])])
                     else Outcome(cfg.(uusdFeeDebt := left, hotWallets := WalletsAfter(cfg, env, msgs)),
                                  if simulation then [] else SentAfter(cfg, env, msgs)))
  {
    assert Step(cfg, Tx(env, if simulation then SimExecute(msgs) else Execute(msgs)))
           == ExecuteExecute(cfg, env, msgs, simulation);
    ExecuteUnchecked(cfg, env, msgs, simulation);
    if !(cfg.uusdFeeDebt == 0 && env.sender == cfg.admin) && !TakesShortcut(cfg, env.sender, msgs) {
      ExecuteChecked(cfg, env, msgs, simulation);
    }
  }

  /**
   One spending message of a sender other than the admin, on a built-in table and by the
   exchange's own answers: a bank send or burn, or a CW20 call that gives up tokens,
   succeeds exactly when the sender is listed, a debt can be paid in one of the coins, a
   due refill can be computed, every coin has a price, and the prices together fit.
   */
  lemma OneSpendIsExact(cfg: Config, env: Env, msg: CosmosMsg, coins: seq<Coin>)
    requires PairsOf(cfg.homeNetwork) == Ok(cfg.pairContracts) && env.sender != cfg.admin
    requires GivesUp(msg, coins) && !(CallsTokenContract(msg) && IsListed(cfg.hotWallets, env.sender))
    ensures var network, wallet := cfg.homeNetwork, cfg.GetWallet(env.sender);
            Step(cfg, Tx(env, Execute([msg]))).Ok?
            <==> && wallet.Some?
                 && (cfg.uusdFeeDebt > 0 ==> !NonePays(network, env.dex, cfg.uusdFeeDebt, coins))
                 && (Seconds(env.time) > wallet.value.currentPeriodReset ==>
                       wallet.value.periodType == DAYS || MonthExists(wallet.value, env.time))
                 && (coins != [] || Seconds(env.time) > wallet.value.currentPeriodReset ==>
                       wallet.value.spendLimits != [])
                 && (forall coin :: coin in coins ==> BuiltInPrice(network, env.dex, coin).Ok?)
                 && BuiltInCharges(network, env.dex, coins) <= Applicable(wallet.value, env.time)
  {
    LimitedMeansSpending(msg);
    ExecuteIsExact(cfg, env, [msg], false);
    ListedMeans(cfg, env.sender);
    assert [msg][0] == msg;
    if cfg.IsActiveHotWallet(env.sender) {
      OneSpendAtPrices(cfg, env, msg, coins);
    }
  }

  lemma OneMessagePasses(cfg: Config, env: Env, msg: CosmosMsg)
    requires !cfg.IsAdmin(env.sender) && cfg.IsActiveHotWallet(env.sender)
    ensures var m, coins := cfg.MarketOn(env.dex), SpentFunds(msg);
            Passes(cfg, env, [msg])
            <==> && TypeOf(msg).Limited() && (cfg.uusdFeeDebt > 0 ==> DebtCoin(m, cfg.uusdFeeDebt, coins).Some?)
                 && cfg.GetWallet(env.sender).value.Access(m, env.time, coins).Ok?
  {
    assert [msg][1..] == [];
    CheckMsgIsAccess(cfg, env, msg);
    BatchPasses(cfg, env, [msg]);
    assert CheckBatch(cfg, env, [msg]).Ok? <==> CheckMsg(cfg, env, msg).Ok?;
  }

  lemma OneSpendAtPrices(cfg: Config, env: Env, msg: CosmosMsg, coins: seq<Coin>)
    requires PairsOf(cfg.homeNetwork) == Ok(cfg.pairContracts)
    requires !cfg.IsAdmin(env.sender) && cfg.IsActiveHotWallet(env.sender)
    requires TypeOf(msg).Limited() && coins == SpentFunds(msg)
    ensures var network, w := cfg.homeNetwork, cfg.GetWallet(env.sender).value;
            Passes(cfg, env, [msg])
            <==> && (cfg.uusdFeeDebt > 0 ==> !NonePays(network, env.dex, cfg.uusdFeeDebt, coins))
                 && (w.ShouldReset(env.time) ==> w.periodType == DAYS || MonthExists(w, env.time))
                 && (coins != [] || w.ShouldReset(env.time) ==> w.spendLimits != [])
                 && (forall coin :: coin in coins ==> BuiltInPrice(network, env.dex, coin).Ok?)
                 && BuiltInCharges(network, env.dex, coins) <= Applicable(w, env.time)
  {
    var w := cfg.GetWallet(env.sender).value;
    OneMessagePasses(cfg, env, msg);
    AccessIsExact(w, cfg.MarketOn(env.dex), env.time, coins);
    RefillIsExact(w, env.time);
    ChargesAreBuiltIn(cfg, env.dex, coins);
    if cfg.uusdFeeDebt > 0 {
      SomeCoinPays(cfg, env.dex, cfg.uusdFeeDebt, coins);
    }
  }

  lemma SomeCoinPays(cfg: Config, dex: Dex, debt: U128, coins: seq<Coin>)
    requires PairsOf(cfg.homeNetwork) == Ok(cfg.pairContracts)
    ensures DebtCoin(cfg.MarketOn(dex), debt, coins).Some? <==> !NonePays(cfg.homeNetwork, dex, debt, coins)
  {
    DebtCoinOnBuiltInTable(cfg.homeNetwork, dex, debt, coins);
  }

  /** Message `i` of a batch is the first refused, in the state that the messages before it left. */
  predicate RefusedAt(cfg: Config, env: Env, msgs: seq<CosmosMsg>, i: nat, e: Error) {
    && i < |msgs| && CheckBatch(cfg, env, msgs[..i]).Ok?
    && CheckMsg(CheckBatch(cfg, env, msgs[..i]).value.cfg, env, msgs[i]) == Err(e)
  }

  lemma {:induction false} BatchRefusal(cfg: Config, env: Env, msgs: seq<CosmosMsg>)
    requires CheckBatch(cfg, env, msgs).Err?
    ensures exists i: nat :: RefusedAt(cfg, env, msgs, i, CheckBatch(cfg, env, msgs).error)
    decreases |msgs|
  {
    var first, e := CheckMsg(cfg, env, msgs[0]), CheckBatch(cfg, env, msgs).error;
    if first.Err? {
      assert msgs[..0] == [] && CheckBatch(cfg, env, msgs[..0]) == Ok(Outcome(cfg, []));
      assert RefusedAt(cfg, env, msgs, 0, e);
    } else {
      var next, rest := first.value.cfg, msgs[1..];
      BatchRefusal(next, env, rest);
      var i: nat :| RefusedAt(next, env, rest, i, e);
      RefusedLater(cfg, env, msgs, i, e);
    }
  }

  lemma RefusedLater(cfg: Config, env: Env, msgs: seq<CosmosMsg>, i: nat, e: Error)
    requires msgs != [] && CheckMsg(cfg, env, msgs[0]).Ok?
    requires RefusedAt(CheckMsg(cfg, env, msgs[0]).value.cfg, env, msgs[1..], i, e)
    ensures RefusedAt(cfg, env, msgs, i + 1, e)
  {
    assert msgs[..i + 1][0] == msgs[0] && msgs[..i + 1][1..] == msgs[1..][..i];
    assert msgs[i + 1] == msgs[1..][i];
  }

  /** A refused execute panics on an empty list, and else has the error of its first refused message. */
  lemma ExecuteRefusal(cfg: Config, env: Env, msgs: seq<CosmosMsg>)
    requires Step(cfg, Tx(env, Execute(msgs))).Err?
    ensures var e := Step(cfg, Tx(env, Execute(msgs))).error;
            if msgs == [] then e == Panicked else exists i: nat :: RefusedAt(cfg, env, msgs, i, e)
  {
    if msgs != [] {
      BatchRefusal(cfg, env, msgs);
    }
  }

  /**
   Why a message is refused, in this order: its type is unknown, it spends nothing and the
   sender is not admin, it cannot pay the debt, the sender is not listed, or its wallet's
   access is refused.
   */
  lemma MessageRefusal(cfg: Config, env: Env, msg: CosmosMsg)
    requires CheckMsg(cfg, env, msg).Err?
    ensures var e, coins := CheckMsg(cfg, env, msg).error, SpentFunds(msg);
            var m := cfg.MarketOn(env.dex);
            if !msg.Bank? && !(msg.WasmExecute? && msg.payload.Cw20?) then e == BadMessageType
            else if !GivesUp(msg, coins) then e == OnlyTransferSendAllowed && env.sender != cfg.admin
            else if cfg.uusdFeeDebt > 0 && DebtCoin(m, cfg.uusdFeeDebt, coins).None? then
              e == UnableToRepayDebt(cfg.uusdFeeDebt)
            else
              && env.sender != cfg.admin
              && match cfg.GetWallet(env.sender)
                 case None => e == HotWalletDoesNotExist
                 case Some(w) => w.Access(m, env.time, coins) == Err(e)
  {
    LimitedMeansSpending(msg);
  }

  // ----- the wallet list

  /** Only the admin adds a wallet, under a new and valid address; it goes to the end of the list. */
  lemma AddIsExact(cfg: Config, env: Env, w: Wallet)
    ensures Step(cfg, Tx(env, AddHotWallet(w)))
            == if env.sender != cfg.admin then Err(Unauthorized)
               else if IsListed(cfg.hotWallets, w.address) then Err(HotWalletExists)
               else if !env.validAddr(w.address) then Err(InvalidAddress(w.address))
               else Ok(Outcome(cfg.(hotWallets := cfg.hotWallets + [w]), []))
  {
    ListedMeans(cfg, w.address);
  }

  /** Removing an address works wallet by wallet, and keeps the order. */
  lemma {:induction false} RetainInParts(x: seq<Wallet>, y: seq<Wallet>, doomed: string)
    ensures Retain(x + y, doomed) == Retain(x, doomed) + Retain(y, doomed)
  {
    if x == [] {
      assert x + y == y;
    } else {
      assert (x + y)[0] == x[0] && (x + y)[1..] == x[1..] + y;
      RetainInParts(x[1..], y, doomed);
    }
  }

  lemma {:induction false} RetainOthers(ws: seq<Wallet>, doomed: string)
    requires !IsListed(ws, doomed)
    ensures Retain(ws, doomed) == ws
  {
    if ws != [] {
      assert ws[0] in ws && forall w :: w in ws[1..] ==> w in ws;
      RetainOthers(ws[1..], doomed);
    }
  }

  /** Only the admin removes a wallet, which must be listed. */
  lemma RemoveIsExact(cfg: Config, env: Env, doomed: string)
    ensures Step(cfg, Tx(env, RmHotWallet(doomed)))
            == if env.sender != cfg.admin then Err(Unauthorized)
               else if !IsListed(cfg.hotWallets, doomed) then Err(HotWalletDoesNotExist)
               else Ok(Outcome(cfg.(hotWallets := Retain(cfg.hotWallets, doomed)), []))
  {
    ListedMeans(cfg, doomed);
  }

  lemma RetainAround(x: seq<Wallet>, w: Wallet, y: seq<Wallet>)
    requires !IsListed(x, w.address) && !IsListed(y, w.address)
    ensures Retain(x + [w] + y, w.address) == x + y
  {
    RetainInParts(x + [w], y, w.address);
    RetainInParts(x, [w], w.address);
    RetainOthers(x, w.address);
    RetainOthers(y, w.address);
    assert [w][1..] == [] && Retain([w], w.address) == [];
    assert x + [] == x;
  }

  /** The removed wallet disappears from its place in the list; the others stay, in order. */
  lemma RemovedFromItsPlace(cfg: Config, env: Env, x: seq<Wallet>, w: Wallet, y: seq<Wallet>)
    requires env.sender == cfg.admin && cfg.hotWallets == x + [w] + y
    requires !IsListed(x, w.address) && !IsListed(y, w.address)
    ensures Step(cfg, Tx(env, RmHotWallet(w.address))) == Ok(Outcome(cfg.(hotWallets := x + y), []))
  {
    RetainAround(x, w, y);
    RemoveIsExact(cfg, env, w.address);
    assert cfg.hotWallets[|x|] == w;
    assert w in cfg.hotWallets;
  }

  // ----- the admin

  /** Only the admin proposes, and only a valid address; it becomes pending and nothing else changes. */
  lemma ProposeIsExact(cfg: Config, env: Env, newAdmin: string)
    ensures Step(cfg, Tx(env, ProposeUpdateAdmin(newAdmin)))
            == if env.sender != cfg.admin then Err(Unauthorized)
               else if !env.validAddr(newAdmin) then Err(InvalidAddress(newAdmin))
               else Ok(Outcome(cfg.(pending := newAdmin), []))
  {
  }

  predicate AllValidAddrs(validAddr: string -> bool, addrs: seq<string>) {
    forall a :: a in addrs ==> validAddr(a)
  }

  predicate FirstInvalid(validAddr: string -> bool, addrs: seq<string>, i: nat) {
    && i < |addrs| && !validAddr(addrs[i])
    && forall j :: 0 <= j < i ==> validAddr(addrs[j])
  }

  lemma InvalidLater(validAddr: string -> bool, addrs: seq<string>, i: nat)
    requires addrs != [] && validAddr(addrs[0]) && FirstInvalid(validAddr, addrs[1..], i)
    ensures FirstInvalid(validAddr, addrs, i + 1)
  {
    assert forall j :: 1 <= j < |addrs| ==> addrs[j] == addrs[1..][j - 1];
  }

  lemma {:induction false} ValidatesAll(validAddr: string -> bool, addrs: seq<string>)
    ensures ValidateAll(validAddr, addrs).Ok? <==> AllValidAddrs(validAddr, addrs)
    ensures ValidateAll(validAddr, addrs).Err? ==>
              exists i: nat :: FirstInvalid(validAddr, addrs, i)
                               && ValidateAll(validAddr, addrs) == Err(InvalidAddress(addrs[i]))
  {
    if addrs != [] {
      assert forall a :: a in addrs <==> a == addrs[0] || a in addrs[1..];
      if !validAddr(addrs[0]) {
        assert FirstInvalid(validAddr, addrs, 0);
      } else {
        ValidatesAll(validAddr, addrs[1..]);
        if ValidateAll(validAddr, addrs[1..]).Err? {
          var i: nat :| FirstInvalid(validAddr, addrs[1..], i)
                        && ValidateAll(validAddr, addrs[1..]) == Err(InvalidAddress(addrs[1..][i]));
          InvalidLater(validAddr, addrs, i);
          assert addrs[i + 1] == addrs[1..][i];
        }
      }
    }
  }

  /** A confirmation succeeds exactly from the pending address with valid signers, and makes it admin. */
  lemma ConfirmIsExact(cfg: Config, env: Env, signers: seq<string>)
    ensures var tx := Tx(env, ConfirmUpdateAdmin(signers));
            && (Step(cfg, tx).Ok? <==> AllValidAddrs(env.validAddr, signers) && env.sender == cfg.pending)
            && (Step(cfg, tx).Ok? ==> Apply(cfg, tx) == Outcome(cfg.(admin := env.sender), []))
            && (AllValidAddrs(env.validAddr, signers) && env.sender != cfg.pending ==>
                  Step(cfg, tx) == Err(CallerIsNotPendingNewAdmin))
            && (!AllValidAddrs(env.validAddr, signers) ==>
                  exists i: nat :: FirstInvalid(env.validAddr, signers, i)
                                   && Step(cfg, tx) == Err(InvalidAddress(signers[i])))
  {
    ValidatesAll(env.validAddr, signers);
  }

  /** Cancelling is the pending address's right alone, and makes the admin pending again. */
  lemma CancelIsExact(cfg: Config, env: Env)
    ensures Step(cfg, Tx(env, CancelUpdateAdmin))
            == if env.sender != cfg.pending then Err(CallerIsNotPendingNewAdmin)
               else Ok(Outcome(cfg.(pending := cfg.admin), []))
  {
  }

  // ----- instantiation

  /** A wallet that instantiation accepts: one limit, in one of the two dollar denoms. */
  predicate IsUsdWallet(w: Wallet) {
    w.usdcDenom == Some("true") && |w.spendLimits| == 1 && w.spendLimits[0].denom in {AXL_USDC, LOCAL_DENOM}
  }

  lemma WalletValidity(w: Wallet)
    ensures w.AssertIsValid().Ok? <==> IsUsdWallet(w)
    ensures w.AssertIsValid() == Err(Panicked) <==> w.usdcDenom == Some("true") && w.spendLimits == []
    ensures w.AssertIsValid().Err? ==> w.AssertIsValid().error in {Panicked, InvalidWallet}
  {
  }

  lemma {:induction false} AllValidIsExact(ws: seq<Wallet>)
    ensures AllValid(ws).Ok? <==> forall w :: w in ws ==> IsUsdWallet(w)
  {
    if ws != [] {
      WalletValidity(ws[0]);
      AllValidIsExact(ws[1..]);
      assert forall w :: w in ws <==> w == ws[0] || w in ws[1..];
    }
  }

  /**
   Instantiation succeeds exactly with valid addresses and signers, dollar wallets and a
   supported network, and stores the message as it is, with nothing pending but the admin.
   */
  lemma InstantiateIsExact(validAddr: string -> bool, msg: InstantiateMsg)
    ensures Instantiate(validAddr, msg).Ok?
            <==> && validAddr(msg.admin) && validAddr(msg.feeLendRepayWallet)
                 && (forall w :: w in msg.hotWallets ==> IsUsdWallet(w))
                 && (NativeDenom(msg.homeNetwork).Some? || msg.homeNetwork == "EMPTY")
                 && AllValidAddrs(validAddr, msg.signers)
    ensures Instantiate(validAddr, msg).Ok? ==>
              var cfg := Instantiate(validAddr, msg).value;
              && cfg.admin == msg.admin && cfg.pending == msg.admin
              && cfg.hotWallets == msg.hotWallets && cfg.uusdFeeDebt == msg.uusdFeeDebt
              && cfg.feeLendRepayWallet == msg.feeLendRepayWallet && cfg.homeNetwork == msg.homeNetwork
              && PairsOf(msg.homeNetwork) == Ok(cfg.pairContracts)
              && (IsTableOf(msg.homeNetwork, cfg.pairContracts)
                  || (msg.homeNetwork == "EMPTY" && cfg.pairContracts == []))
    ensures !validAddr(msg.admin) ==> Instantiate(validAddr, msg) == Err(InvalidAddress(msg.admin))
    ensures validAddr(msg.admin) && !validAddr(msg.feeLendRepayWallet)
            ==> Instantiate(validAddr, msg) == Err(InvalidAddress(msg.feeLendRepayWallet))
    ensures validAddr(msg.admin) && validAddr(msg.feeLendRepayWallet)
            && (forall w :: w in msg.hotWallets ==> IsUsdWallet(w))
            && NativeDenom(msg.homeNetwork).None? && msg.homeNetwork != "EMPTY"
            ==> Instantiate(validAddr, msg) == Err(UnsupportedChain(msg.homeNetwork))
  {
    var addrs := [msg.admin, msg.feeLendRepayWallet];
    ValidatesAll(validAddr, addrs);
    assert AllValidAddrs(validAddr, addrs) <==> validAddr(msg.admin) && validAddr(msg.feeLendRepayWallet) by {
      assert addrs[0] in addrs && addrs[1] in addrs;
    }
    AllValidIsExact(msg.hotWallets);
    TableOfNetwork(msg.homeNetwork);
    ValidatesAll(validAddr, msg.signers);
  }

  // ----- the queries

  /** The query's answer on coins: whether each fits alone; a wallet without a limit aborts it. */
  predicate AnswersOnCoins(cfg: Config, env: Env, sender: string, coins: seq<Coin>, answer: Result<bool>) {
    match cfg.GetWallet(sender)
    case None => answer == Ok(false)
    case Some(w) =>
      var m := cfg.MarketOn(env.dex);
      if forall coin :: coin in coins ==> Fits(w, m, coin, Seconds(env.time) > w.currentPeriodReset)
      then answer == Ok(true)
      else if w.spendLimits == [] && m.GetConvertedToUsdc(coins[0], false).Ok? then answer == Err(Panicked)
      else answer == Ok(false)
  }

  lemma PriceNeverPanics(m: Market, coin: Coin)
    ensures m.GetConvertedToUsdc(coin, false) != Err(Panicked)
  {
    FindPairNeverPanics(m.pairs, (coin.denom, AXL_USDC));
  }

  lemma {:induction false} FindPairNeverPanics(pairs: seq<PairContract>, denoms: (string, string))
    ensures FindPair(pairs, denoms) != Err(Panicked)
  {
    if pairs != [] {
      FindPairNeverPanics(pairs[1..], denoms);
    }
  }

  lemma {:induction false} CheckSpendPanics(w: Wallet, m: Market, coins: seq<Coin>, reset: bool)
    ensures w.CheckSpend(m, coins, reset) == Err(Panicked)
            <==> coins != [] && w.spendLimits == [] && m.GetConvertedToUsdc(coins[0], false).Ok?
    decreases |coins|
  {
    if coins != [] {
      PriceNeverPanics(m, coins[0]);
      CheckSpendPanics(w, m, coins[1..], reset);
    }
  }

  lemma CoinsAreAnswered(cfg: Config, env: Env, sender: string, coins: seq<Coin>)
    requires sender != cfg.admin
    ensures AnswersOnCoins(cfg, env, sender, coins,
                           match cfg.CheckSpendLimits(env.dex, env.time, sender, coins)
                           case Ok(_) => Ok(true)
                           case Err(Panicked) => Err(Panicked)
                           case Err(_) => Ok(false))
  {
    match cfg.GetWallet(sender)
    case None =>
    case Some(w) =>
      CheckSpendIsPerCoin(w, cfg.MarketOn(env.dex), coins, w.ShouldReset(env.time));
      CheckSpendPanics(w, cfg.MarketOn(env.dex), coins, w.ShouldReset(env.time));
  }

  /**
   The spend query: yes to the admin; for others a single message only, yes to a call of a
   token contract by a valid listed address, an answer on the coins of a bank send and on
   the coin of a delegation, and an error on every other message.
   */
  lemma CanSpendIsExact(cfg: Config, env: Env, sender: string, msgs: seq<CosmosMsg>)
    ensures var answer := QueryCanSpend(cfg, env, sender, msgs);
            if sender == cfg.admin then answer == Ok(true)
            else if |msgs| > 1 then answer == Err(QueryNotSupported)
            else if msgs == [] then answer == Err(Panicked)
            else
              match msgs[0]
              case WasmExecute(_, _, _) =>
                answer == if !env.validAddr(sender) then Err(InvalidAddress(sender))
                          else if CallsTokenContract(msgs[0]) && IsListed(cfg.hotWallets, sender) then Ok(true)
                          else Err(QueryNotSupported)
              case Bank(Send(_, coins)) => AnswersOnCoins(cfg, env, sender, coins, answer)
              case Delegate(_, coin) => AnswersOnCoins(cfg, env, sender, [coin], answer)
              case _ => answer == Err(QueryNotSupported)
  {
    if sender != cfg.admin && |msgs| == 1 {
      ShortcutMeans(cfg, sender, msgs[0]);
      match msgs[0]
      case Bank(Send(_, coins)) => CoinsAreAnswered(cfg, env, sender, coins);
      case Delegate(_, coin) => CoinsAreAnswered(cfg, env, sender, [coin]);
      case _ =>
    }
  }
}
