/** The spend limit's meaning: a bound on everything charged to a wallet over a run. */
module RateBounds {
  import opened Prelude
  import opened Calendar
  import opened Pricing
  import opened HotWallets
  import opened SpendProperties
  import opened RateLimit
  import opened Submsgs
  import opened States
  import opened WalletLists
  import opened Machine
  import opened Frames
  import opened ExecuteProperties
  import opened Acceptance
  import opened Runs

  // ----- what is charged

  function MsgsCharges(m: Market, msgs: seq<CosmosMsg>): nat {
    if msgs == [] then 0 else SumCharges(m, SpentFunds(msgs[0])) + MsgsCharges(m, msgs[1..])
  }

  /** The transaction goes through the limit check of this address. */
  predicate IsLimited(cfg: Config, tx: Tx, addr: string) {
    && (tx.call.Execute? || tx.call.SimExecute?)
    && tx.env.sender == addr
    && !cfg.IsAdmin(addr)
    && tx.call.msgs != [] && !Shortcut(cfg, addr, tx.call.msgs[0])
  }

  /** The charges of a transaction's own messages, if it succeeds. */
  function TxCharges(cfg: Config, tx: Tx, addr: string): nat {
    if IsLimited(cfg, tx, addr) && Step(cfg, tx).Ok? then MsgsCharges(cfg.MarketOn(tx.env.dex), tx.call.msgs) else 0
  }

  /** Everything charged to an address by the transactions `i` to `j`. */
  function RunCharges(cfg: Config, txs: seq<Tx>, addr: string, i: nat, j: nat): nat
    requires i <= j <= |txs|
    decreases j - i
  {
    if i == j then 0 else TxCharges(StateAt(cfg, txs, i), txs[i], addr) + RunCharges(cfg, txs, addr, i + 1, j)
  }

  function TimeOf(tx: Tx): nat {
    Seconds(tx.env.time)
  }

  predicate Ordered(txs: seq<Tx>) {
    forall i, j :: 0 <= i <= j < |txs| ==> txs[i].env.time <= txs[j].env.time
  }

  predicate NotAdded(txs: seq<Tx>, addr: string) {
    forall i :: 0 <= i < |txs| && txs[i].call.AddHotWallet? ==> txs[i].call.newHotWallet.address != addr
  }

  // ----- one wallet through one step

  /** `w'` is `w` with another reset time and remaining limit, which only a refill can have raised. */
  predicate Continues(w: Wallet, w': Wallet) {
    && SameSettings(w, w')
    && w'.Remaining() <= Max(w.Remaining(), w.Amount())
  }

  lemma ContinuesTwice(w: Wallet, mid: Wallet, w': Wallet)
    requires Continues(w, mid) && Continues(mid, w')
    ensures Continues(w, w')
    ensures w.Amount() == mid.Amount() == w'.Amount() && Pace(w) == Pace(mid) == Pace(w')
  {
  }

  lemma CheckMsgContinues(cfg: Config, env: Env, msg: CosmosMsg)
    requires CheckMsg(cfg, env, msg).Ok? && !cfg.IsAdmin(env.sender)
    ensures var cfg' := CheckMsg(cfg, env, msg).value.cfg;
            && cfg.GetWallet(env.sender).Some? && cfg'.GetWallet(env.sender).Some?
            && var w := cfg.GetWallet(env.sender).value;
            && w.Access(cfg.MarketOn(env.dex), env.time, SpentFunds(msg)) == Ok(cfg'.GetWallet(env.sender).value)
            && Continues(w, cfg'.GetWallet(env.sender).value)
  {
    CheckMsgIsAccess(cfg, env, msg);
    AccessIsExact(cfg.GetWallet(env.sender).value, cfg.MarketOn(env.dex), env.time, SpentFunds(msg));
  }

  /** The ledger of a batch: the charges of its messages leave the budget, and nothing else does. */
  lemma {:induction false} CheckBatchTakesFromBudget(cfg: Config, env: Env, msgs: seq<CosmosMsg>, end: nat)
    requires CheckBatch(cfg, env, msgs).Ok? && !cfg.IsAdmin(env.sender)
    requires cfg.GetWallet(env.sender).Some? && Pace(cfg.GetWallet(env.sender).value) > 0
    requires Seconds(env.time) <= end
    ensures var w := cfg.GetWallet(env.sender).value;
            var w' := CheckBatch(cfg, env, msgs).value.cfg.GetWallet(env.sender);
            && w'.Some? && Continues(w, w'.value) && Pace(w'.value) > 0
            && MsgsCharges(cfg.MarketOn(env.dex), msgs) + Budget(w'.value, Seconds(env.time), end)
               == Budget(w, Seconds(env.time), end)
    decreases |msgs|
  {
    if msgs != [] {
      var w, mid := cfg.GetWallet(env.sender).value, CheckMsg(cfg, env, msgs[0]).value.cfg;
      CheckMsgContinues(cfg, env, msgs[0]);
      CheckMsgOnlySpends(cfg, env, msgs[0]);
      AccessTakesFromBudget(w, cfg.MarketOn(env.dex), env.time, SpentFunds(msgs[0]), end);
      CheckBatchTakesFromBudget(mid, env, msgs[1..], end);
      ContinuesTwice(w, mid.GetWallet(env.sender).value,
                     CheckBatch(cfg, env, msgs).value.cfg.GetWallet(env.sender).value);
    }
  }

  /** A step that is not a limited one of `addr` keeps its wallet as it is, or removes it. */
  lemma OtherStepsKeepWallet(cfg: Config, tx: Tx, addr: string)
    requires tx.call.AddHotWallet? ==> tx.call.newHotWallet.address != addr
    requires !IsLimited(cfg, tx, addr)
    ensures Apply(cfg, tx).cfg.GetWallet(addr) in {None, cfg.GetWallet(addr)}
  {
    if Step(cfg, tx).Ok? {
      match tx.call
      case AddHotWallet(w) => AddedIsFound(cfg, tx.env, w, addr);
      case RmHotWallet(doomed) => RemovedIsNotFound(cfg, tx.env, doomed, addr);
      case Execute(msgs) => OtherExecutesKeepWallet(cfg, tx, addr);
      case SimExecute(msgs) => OtherExecutesKeepWallet(cfg, tx, addr);
      case _ =>
    }
  }

  lemma OtherExecutesKeepWallet(cfg: Config, tx: Tx, addr: string)
    requires tx.call.Execute? || tx.call.SimExecute?
    requires !IsLimited(cfg, tx, addr) && Step(cfg, tx).Ok?
    ensures Apply(cfg, tx).cfg.GetWallet(addr) == cfg.GetWallet(addr)
  {
    ExecuteOnlySpends(cfg, tx.env, tx.call.msgs, tx.call.SimExecute?);
    OnlySpentKeepsAddresses(cfg, Apply(cfg, tx).cfg, tx.env.sender, addr);
  }

  /** The budget of the wallet listed for an address, 0 when none is. */
  ghost function BudgetAt(cfg: Config, addr: string, s: nat, end: nat): nat
    requires cfg.GetWallet(addr).Some? ==> Pace(cfg.GetWallet(addr).value) > 0
  {
    match cfg.GetWallet(addr)
    case None => 0
    case Some(w) => Budget(w, s, end)
  }

  lemma StepTakesFromBudget(cfg: Config, tx: Tx, addr: string, end: nat)
    requires tx.call.AddHotWallet? ==> tx.call.newHotWallet.address != addr
    requires cfg.GetWallet(addr).Some? ==> Pace(cfg.GetWallet(addr).value) > 0
    requires TimeOf(tx) <= end
    ensures var w, w' := cfg.GetWallet(addr), Apply(cfg, tx).cfg.GetWallet(addr);
            && (w'.Some? ==> w.Some? && Continues(w.value, w'.value) && Pace(w'.value) > 0)
            && TxCharges(cfg, tx, addr) + BudgetAt(Apply(cfg, tx).cfg, addr, TimeOf(tx), end)
               <= BudgetAt(cfg, addr, TimeOf(tx), end)
  {
    if IsLimited(cfg, tx, addr) {
      if Step(cfg, tx).Ok? {
        StepNeedsAuthority(cfg, tx);
        CheckBatchTakesFromBudget(cfg, tx.env, tx.call.msgs, end);
      }
    } else {
      OtherStepsKeepWallet(cfg, tx, addr);
    }
  }

  // ----- runs

  /** The wallet of an address keeps its settings through a run, until it is removed. */
  lemma {:induction false} RunContinuesWallet(cfg: Config, txs: seq<Tx>, addr: string, n: nat)
    requires n <= |txs| && NotAdded(txs, addr)
    requires cfg.GetWallet(addr).Some? ==> Pace(cfg.GetWallet(addr).value) > 0
    ensures var w, w' := cfg.GetWallet(addr), StateAt(cfg, txs, n).GetWallet(addr);
            w'.Some? ==> w.Some? && Continues(w.value, w'.value)
                         && w'.value.Amount() == w.value.Amount() && Pace(w'.value) == Pace(w.value)
  {
    if n > 0 {
      RunContinuesWallet(cfg, txs, addr, n - 1);
      var before, now := StateAt(cfg, txs, n - 1), StateAt(cfg, txs, n);
      StepTakesFromBudget(before, txs[n - 1], addr, TimeOf(txs[n - 1]));
      if now.GetWallet(addr).Some? {
        ContinuesTwice(cfg.GetWallet(addr).value, before.GetWallet(addr).value, now.GetWallet(addr).value);
      }
    }
  }

  /** All that a run charges up to a moment comes out of the budget the wallet had at its start. */
  lemma {:induction false} RunTakesFromBudget(cfg: Config, txs: seq<Tx>, addr: string, i: nat, j: nat, end: nat)
    requires i < j <= |txs| && NotAdded(txs, addr) && Ordered(txs) && TimeOf(txs[j - 1]) <= end
    requires StateAt(cfg, txs, i).GetWallet(addr).Some? ==> Pace(StateAt(cfg, txs, i).GetWallet(addr).value) > 0
    ensures RunCharges(cfg, txs, addr, i, j) <= BudgetAt(StateAt(cfg, txs, i), addr, TimeOf(txs[i]), end)
    decreases j - i
  {
    var now, next := StateAt(cfg, txs, i), StateAt(cfg, txs, i + 1);
    assert txs[i].env.time <= txs[j - 1].env.time;
    StepTakesFromBudget(now, txs[i], addr, end);
    if i + 1 < j {
      RunTakesFromBudget(cfg, txs, addr, i + 1, j, end);
      assert txs[i].env.time <= txs[i + 1].env.time;
      if next.GetWallet(addr).Some? {
        BudgetShrinks(next.GetWallet(addr).value, TimeOf(txs[i]), TimeOf(txs[i + 1]), end);
      }
    }
  }

  /**
   The rate bound of a period in days, for any prices: in every stretch of a run that spans
   at most `span` seconds, what is charged is at most what was left at the start of the run,
   or the amount if that is more, and one amount more for every period started, a period
   being one second longer than the days it counts.
   */
  lemma DayRateBound(cfg: Config, txs: seq<Tx>, addr: string, i: nat, j: nat, span: nat)
    requires cfg.GetWallet(addr).Some? && cfg.GetWallet(addr).value.periodType == DAYS
    requires i < j <= |txs| && NotAdded(txs, addr) && Ordered(txs)
    requires TimeOf(txs[j - 1]) - TimeOf(txs[i]) <= span
    ensures var w := cfg.GetWallet(addr).value;
            var period := w.periodMultiple * SECONDS_PER_DAY + 1;
            && RunCharges(cfg, txs, addr, i, j)
               <= Max(w.Remaining(), w.Amount()) + Allowance(w.Amount(), 1, span, period)
            && (w.Remaining() <= w.Amount() ==>
                  RunCharges(cfg, txs, addr, i, j) <= DayAllowance(w.Amount(), period, span))
  {
    var now, s, end := StateAt(cfg, txs, i), TimeOf(txs[i]), TimeOf(txs[j - 1]);
    assert txs[i].env.time <= txs[j - 1].env.time;
    RunContinuesWallet(cfg, txs, addr, i);
    RunTakesFromBudget(cfg, txs, addr, i, j, end);
    if now.GetWallet(addr).Some? {
      DayBudget(now.GetWallet(addr).value, s, end, span);
    }
  }

  /**
   The rate bound of a period in months, for any prices: a stretch from linear month `a` to
   linear month `b` charges at most what was left at its start plus the amount once for
   each of the months `a`, `a + periodMultiple`, ... up to `b`.
   */
  lemma MonthRateBound(cfg: Config, txs: seq<Tx>, addr: string, i: nat, j: nat)
    requires cfg.GetWallet(addr).Some?
    requires cfg.GetWallet(addr).value.periodType == MONTHS && cfg.GetWallet(addr).value.periodMultiple >= 1
    requires i < j <= |txs| && NotAdded(txs, addr) && Ordered(txs)
    ensures var w := cfg.GetWallet(addr).value;
            var a, b := MonthOf(TimeOf(txs[i])), MonthOf(TimeOf(txs[j - 1]));
            RunCharges(cfg, txs, addr, i, j)
            <= LeftAt(cfg, txs, addr, i) + Allowance(w.Amount(), a, b, w.periodMultiple)
  {
    var now, s, end := StateAt(cfg, txs, i), TimeOf(txs[i]), TimeOf(txs[j - 1]);
    RunContinuesWallet(cfg, txs, addr, i);
    RunTakesFromBudget(cfg, txs, addr, i, j, end);
    if now.GetWallet(addr).Some? {
      MonthBudget(now.GetWallet(addr).value, s, end);
    }
  }

  /** What is left of the limit of an address before transaction `i`; nothing if it has no wallet. */
  function LeftAt(cfg: Config, txs: seq<Tx>, addr: string, i: nat): nat
    requires i <= |txs|
  {
    match StateAt(cfg, txs, i).GetWallet(addr)
    case Some(now) => now.Remaining()
    case None => 0
  }

  // ----- what is sent out

  function MsgsValues(m: Market, msgs: seq<CosmosMsg>): nat {
    if msgs == [] then 0 else SumValues(m, SpentFunds(msgs[0])) + MsgsValues(m, msgs[1..])
  }

  /** The USDC value of all that a transaction of this address sends out, the repayment aside. */
  function TxValueSent(cfg: Config, tx: Tx, addr: string): nat {
    if (tx.call.Execute? || tx.call.SimExecute?) && tx.env.sender == addr && !cfg.IsAdmin(addr) then
      MsgsValues(cfg.MarketOn(tx.env.dex), WithoutRepayments(Apply(cfg, tx).sent))
    else 0
  }

  function RunValueSent(cfg: Config, txs: seq<Tx>, addr: string, i: nat, j: nat): nat
    requires i <= j <= |txs|
    decreases j - i
  {
    if i == j then 0 else TxValueSent(StateAt(cfg, txs, i), txs[i], addr) + RunValueSent(cfg, txs, addr, i + 1, j)
  }

  /** No coin of the batch is worth 2^64 or more. */
  predicate SmallCoins(m: Market, msgs: seq<CosmosMsg>) {
    forall i :: 0 <= i < |msgs| ==> forall coin :: coin in SpentFunds(msgs[i]) ==> UsdcValue(m, coin) < TWO_64
  }

  lemma {:induction false} SmallCoinsAreChargedInFull(m: Market, msgs: seq<CosmosMsg>)
    requires SmallCoins(m, msgs)
    ensures MsgsValues(m, msgs) == MsgsCharges(m, msgs)
  {
    if msgs != [] {
      SumChargesBelowValues(m, SpentFunds(msgs[0]));
      SmallCoinsAreChargedInFull(m, msgs[1..]);
    }
  }

  /** On a built-in pair table a shortcut call carries nothing that has a USDC value. */
  lemma ShortcutHasNoValue(cfg: Config, dex: Dex, sender: string, msg: CosmosMsg)
    requires Shortcut(cfg, sender, msg) && PairsOf(cfg.homeNetwork) == Ok(cfg.pairContracts)
    ensures MsgsValues(cfg.MarketOn(dex), [msg]) == 0
  {
    var m, coins := cfg.MarketOn(dex), SpentFunds(msg);
    assert [msg][0] == msg && [msg][1..] == [];
    assert MsgsValues(m, [msg]) == SumValues(m, coins);
    if coins != [] {
      assert coins == [Coin(msg.contractAddr, coins[0].amount)] && coins[1..] == [];
      ShortcutTokensAreNotNamed(msg.contractAddr);
      TokensHaveNoPrice(cfg.homeNetwork, dex, msg.contractAddr, coins[0].amount, 0);
    }
  }

  lemma ValueSentIsCharged(cfg: Config, tx: Tx, addr: string)
    requires PairsOf(cfg.homeNetwork) == Ok(cfg.pairContracts)
    requires tx.call.Execute? ==> SmallCoins(cfg.MarketOn(tx.env.dex), tx.call.msgs)
    ensures TxValueSent(cfg, tx, addr) <= TxCharges(cfg, tx, addr)
  {
    if (tx.call.Execute? || tx.call.SimExecute?) && tx.env.sender == addr && !cfg.IsAdmin(addr) && Step(cfg, tx).Ok? {
      var sent := Apply(cfg, tx).sent;
      if Shortcut(cfg, addr, tx.call.msgs[0]) {
        ShortcutHasNoValue(cfg, tx.env.dex, addr, tx.call.msgs[0]);
        assert sent[1..] == [] && WithoutRepayments(sent) == [tx.call.msgs[0]] + [] == [tx.call.msgs[0]];
      } else if tx.call.Execute? {
        MessagesAreConserved(cfg, tx.env, tx.call.msgs);
        SmallCoinsAreChargedInFull(cfg.MarketOn(tx.env.dex), tx.call.msgs);
      }
    }
  }

  /** No coin that the executes `i` to `j` hold is worth 2^64 or more when it is sent. */
  predicate SmallCoinsIn(cfg: Config, txs: seq<Tx>, i: nat, j: nat)
    requires i <= j <= |txs|
  {
    forall k :: i <= k < j && txs[k].call.Execute? ==>
                  SmallCoins(StateAt(cfg, txs, k).MarketOn(txs[k].env.dex), txs[k].call.msgs)
  }

  /**
   While no coin is worth 2^64 or more, all that a run sends out for another than the admin,
   shortcut calls included, is worth at most what it charges.
   */
  lemma {:induction false} RunValueSentIsCharged(cfg: Config, txs: seq<Tx>, addr: string, i: nat, j: nat)
    requires i <= j <= |txs| && PairsOf(cfg.homeNetwork) == Ok(cfg.pairContracts) && SmallCoinsIn(cfg, txs, i, j)
    ensures RunValueSent(cfg, txs, addr, i, j) <= RunCharges(cfg, txs, addr, i, j)
    decreases j - i
  {
    if i < j {
      RunKeepsTable(cfg, txs, i);
      ValueSentIsCharged(StateAt(cfg, txs, i), txs[i], addr);
      RunValueSentIsCharged(cfg, txs, addr, i + 1, j);
    }
  }

  /**
   What the limiter is for, in days: on a built-in pair table, a wallet within its limit
   gets no more value out in any `span` seconds than two amounts and one for each whole
   period in them, while no coin is worth 2^64 or more.
   */
  lemma DayValueBound(cfg: Config, txs: seq<Tx>, addr: string, i: nat, j: nat, span: nat)
    requires cfg.GetWallet(addr).Some? && cfg.GetWallet(addr).value.periodType == DAYS
    requires cfg.GetWallet(addr).value.Remaining() <= cfg.GetWallet(addr).value.Amount()
    requires i < j <= |txs| && NotAdded(txs, addr) && Ordered(txs)
    requires TimeOf(txs[j - 1]) - TimeOf(txs[i]) <= span
    requires PairsOf(cfg.homeNetwork) == Ok(cfg.pairContracts) && SmallCoinsIn(cfg, txs, i, j)
    ensures var w := cfg.GetWallet(addr).value;
            RunValueSent(cfg, txs, addr, i, j)
            <= w.Amount() * (span / (w.periodMultiple * SECONDS_PER_DAY + 1) + 2)
  {
    var w := cfg.GetWallet(addr).value;
    RunValueSentIsCharged(cfg, txs, addr, i, j);
    DayRateBound(cfg, txs, addr, i, j, span);
    DayAllowanceClosedForm(w.Amount(), w.periodMultiple * SECONDS_PER_DAY + 1, span);
  }

  /** The same in months: what was left, and one amount for every period started. */
  lemma MonthValueBound(cfg: Config, txs: seq<Tx>, addr: string, i: nat, j: nat)
    requires cfg.GetWallet(addr).Some?
    requires cfg.GetWallet(addr).value.periodType == MONTHS && cfg.GetWallet(addr).value.periodMultiple >= 1
    requires i < j <= |txs| && NotAdded(txs, addr) && Ordered(txs)
    requires PairsOf(cfg.homeNetwork) == Ok(cfg.pairContracts) && SmallCoinsIn(cfg, txs, i, j)
    ensures var w := cfg.GetWallet(addr).value;
            var a, b := MonthOf(TimeOf(txs[i])), MonthOf(TimeOf(txs[j - 1]));
            RunValueSent(cfg, txs, addr, i, j)
            <= LeftAt(cfg, txs, addr, i) + w.Amount() * ((b - a) / w.periodMultiple + 1)
  {
    RunValueSentIsCharged(cfg, txs, addr, i, j);
    MonthRateBound(cfg, txs, addr, i, j);
    MonthAllowance(txs, i, j, cfg.GetWallet(addr).value);
  }

  lemma MonthAllowance(txs: seq<Tx>, i: nat, j: nat, w: Wallet)
    requires i < j <= |txs| && Ordered(txs) && w.periodMultiple >= 1
    ensures var a, b := MonthOf(TimeOf(txs[i])), MonthOf(TimeOf(txs[j - 1]));
            Allowance(w.Amount(), a, b, w.periodMultiple) == w.Amount() * ((b - a) / w.periodMultiple + 1)
  {
    assert txs[i].env.time <= txs[j - 1].env.time;
    MonthOfMonotone(TimeOf(txs[i]), TimeOf(txs[j - 1]));
    AllowanceClosedForm(w.Amount(), MonthOf(TimeOf(txs[i])), MonthOf(TimeOf(txs[j - 1])), w.periodMultiple);
  }
}
