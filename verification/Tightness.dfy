/** The rate bounds cannot be improved: runs that reach them, and the period that has none. */
module Tightness {
  import opened Prelude
  import opened Calendar
  import opened Pricing
  import opened HotWallets
  import opened SpendProperties
  import opened RateLimit
  import opened Submsgs
  import opened States
  import opened Machine
  import opened Frames
  import opened Runs
  import opened RateBounds

  /** One bank message that sends an amount of USDC. */
  function UsdcSend(amount: U64): CosmosMsg {
    Bank(BankMsg.Send("receiver", [Coin(AXL_USDC, amount)]))
  }

  lemma UsdcSendCharge(m: Market, amount: U64)
    ensures AllConvert(m, SpentFunds(UsdcSend(amount)))
    ensures SumCharges(m, SpentFunds(UsdcSend(amount))) == amount
  {
    var coins := SpentFunds(UsdcSend(amount));
    assert coins == [Coin(AXL_USDC, amount)];
    assert SumCharges(m, coins) == Charge(m, coins[0]) + SumCharges(m, coins[1..]);
    assert m.GetConvertedToUsdc(coins[0], false) == Ok(coins[0]);
  }

  /** A hot wallet that owes nothing and whose whole amount is the limit to check against. */
  predicate CanSpendAll(cfg: Config, env: Env) {
    && cfg.uusdFeeDebt == 0 && !cfg.IsAdmin(env.sender)
    && cfg.GetWallet(env.sender).Some?
    && var w := cfg.GetWallet(env.sender).value;
    && w.spendLimits != []
    && Applicable(w, env.time) == w.Amount()
    && (w.ShouldReset(env.time) ==> w.ResetPeriod(env.time).Ok?)
  }

  /** Such a wallet can send its whole amount at once. */
  lemma SpendAllOnce(cfg: Config, env: Env)
    requires CanSpendAll(cfg, env)
    ensures var w := cfg.GetWallet(env.sender).value;
            var checked := CheckMsg(cfg, env, UsdcSend(w.Amount()));
            && checked.Ok? && checked.value.sent == []
            && var cfg' := checked.value.cfg;
            && OnlySpent(cfg, cfg', env.sender) && cfg'.uusdFeeDebt == 0
            && cfg'.GetWallet(env.sender).Some?
            && var w' := cfg'.GetWallet(env.sender).value;
            && SameSettings(w, w') && w'.Remaining() == 0 && w'.spendLimits != []
            && w'.currentPeriodReset == if w.ShouldReset(env.time) then w.ResetPeriod(env.time).value.currentPeriodReset
                                        else w.currentPeriodReset
  {
    var w := cfg.GetWallet(env.sender).value;
    var m, msg := cfg.MarketOn(env.dex), UsdcSend(w.Amount());
    UsdcSendCharge(m, w.Amount());
    AccessIsExact(w, m, env.time, SpentFunds(msg));
    CheckMsgOnlySpends(cfg, env, msg);
    CheckMsgContinues(cfg, env, msg);
  }

  // ----- zero months

  /** The wallet of a sender refills at every access of this moment. */
  predicate RefillsEveryTime(cfg: Config, env: Env) {
    && CanSpendAll(cfg, env)
    && var w := cfg.GetWallet(env.sender).value;
    && RefillsAgain(w, env.time)
  }

  lemma ZeroMonthsStep(cfg: Config, env: Env)
    requires RefillsEveryTime(cfg, env)
    ensures var w := cfg.GetWallet(env.sender).value;
            var checked := CheckMsg(cfg, env, UsdcSend(w.Amount()));
            && checked.Ok? && checked.value.sent == []
            && RefillsEveryTime(checked.value.cfg, env)
            && checked.value.cfg.GetWallet(env.sender).value.Amount() == w.Amount()
            && checked.value.cfg.MarketOn(env.dex) == cfg.MarketOn(env.dex)
  {
    var w := cfg.GetWallet(env.sender).value;
    SpendAllOnce(cfg, env);
    var w' := CheckMsg(cfg, env, UsdcSend(w.Amount())).value.cfg.GetWallet(env.sender).value;
    MonthRefill(w, env.time);
    SameSettingsRefillAlike(w, w', env.time);
  }

  function Repeat(msg: CosmosMsg, n: nat): (msgs: seq<CosmosMsg>)
    ensures |msgs| == n && forall i :: 0 <= i < n ==> msgs[i] == msg
  {
    if n == 0 then [] else [msg] + Repeat(msg, n - 1)
  }

  lemma {:induction false} ZeroMonthsBatch(cfg: Config, env: Env, n: nat)
    requires RefillsEveryTime(cfg, env)
    ensures var w := cfg.GetWallet(env.sender).value;
            var msgs := Repeat(UsdcSend(w.Amount()), n);
            && CheckBatch(cfg, env, msgs).Ok?
            && MsgsCharges(cfg.MarketOn(env.dex), msgs) == w.Amount() * n
    decreases n
  {
    if n > 0 {
      var w := cfg.GetWallet(env.sender).value;
      var msg := UsdcSend(w.Amount());
      ZeroMonthsStep(cfg, env);
      ZeroMonthsBatch(CheckMsg(cfg, env, msg).value.cfg, env, n - 1);
      UsdcSendCharge(cfg.MarketOn(env.dex), w.Amount());
      assert Repeat(msg, n)[1..] == Repeat(msg, n - 1);
      OneMore(w.Amount(), n - 1);
    }
  }

  /** `n` sends of the whole amount in one execute. */
  function RepeatedSend(env: Env, w: Wallet, n: nat): Tx {
    Tx(env, Execute(Repeat(UsdcSend(w.Amount()), n)))
  }

  /**
   A period of 0 months has no rate bound at all: once the month has begun and the reset
   time is past, a run of one execute charges the whole amount `n` times, for every `n`, and
   so more than any number given before.
   */
  lemma ZeroMonthsHasNoBound(cfg: Config, env: Env, n: nat)
    requires RefillsEveryTime(cfg, env) && n >= 1
    ensures var w := cfg.GetWallet(env.sender).value;
            var txs := [RepeatedSend(env, w, n)];
            && Step(cfg, txs[0]).Ok? && Ordered(txs) && NotAdded(txs, env.sender)
            && RunCharges(cfg, txs, env.sender, 0, 1) == w.Amount() * n
            && (w.Amount() > 0 ==> RunCharges(cfg, txs, env.sender, 0, 1) >= n)
  {
    var w := cfg.GetWallet(env.sender).value;
    var tx := RepeatedSend(env, w, n);
    ZeroMonthsBatch(cfg, env, n);
    assert TxCharges(cfg, tx, env.sender) == w.Amount() * n;
    OneTransaction(cfg, tx, env.sender);
    if w.Amount() > 0 {
      ProductMonotone(n, 1, w.Amount());
    }
  }

  lemma OneTransaction(cfg: Config, tx: Tx, addr: string)
    ensures RunCharges(cfg, [tx], addr, 0, 1) == TxCharges(cfg, tx, addr)
  {
    assert StateAt(cfg, [tx], 0) == cfg;
    assert RunCharges(cfg, [tx], addr, 1, 1) == 0;
  }

  // ----- schedules of sends

  /** The period of the wallet can always be computed. */
  predicate NeverFails(w: Wallet) {
    w.periodType == DAYS || 1 <= w.periodMultiple <= 11
  }

  /** The reset time that a refill at second `s` sets. */
  function ResetAfter(w: Wallet, s: nat): nat {
    match w.periodType
    case DAYS => s + w.periodMultiple * SECONDS_PER_DAY
    case MONTHS => MonthStart(MonthOf(s) + w.periodMultiple) * SECONDS_PER_DAY
  }

  lemma RefillAt(w: Wallet, now: Timestamp)
    requires NeverFails(w) && w.spendLimits != []
    ensures w.ResetPeriod(now).Ok?
    ensures w.ResetPeriod(now).value.currentPeriodReset == ResetAfter(w, Seconds(now))
  {
    if w.periodType == DAYS {
      DayResetIsExact(w, now);
    } else {
      MonthMultiplesThatNeverFail(w);
      assert w.NextReset(now).Ok? && w.ResetPeriod(now).Ok?;
      MonthRefill(w, now);
    }
  }

  /** A second after the next reset, the clock is exactly one pace ahead. */
  lemma NextPeriod(w: Wallet, s: nat)
    requires NeverFails(w)
    ensures s <= ResetAfter(w, s)
    ensures Clock(w, ResetAfter(w, s) + 1) == Clock(w, s) + Pace(w)
  {
    if w.periodType == MONTHS {
      MonthsAhead(s, w.periodMultiple);
      MonthOfIsTheOnlyOne(ResetAfter(w, s) + 1, MonthOf(s) + w.periodMultiple);
    }
  }

  /** The block times of a schedule: the last second of a period, then the first of every later one. */
  function ScheduleTime(w: Wallet, k: nat): nat {
    if k == 0 then w.currentPeriodReset
    else if k == 1 then w.currentPeriodReset + 1
    else ResetAfter(w, ScheduleTime(w, k - 1)) + 1
  }

  lemma {:induction false} ScheduleTimesGrow(w: Wallet, k: nat, n: nat)
    requires NeverFails(w) && k <= n
    ensures ScheduleTime(w, k) <= ScheduleTime(w, n)
    decreases n
  {
    if k < n {
      ScheduleTimesGrow(w, k, n - 1);
      NextPeriod(w, ScheduleTime(w, n - 1));
    }
  }

  /** Transaction `k` of a run sends the whole amount of `w` at scheduled time `k`. */
  predicate FollowsSchedule(txs: seq<Tx>, sender: string, w: Wallet) {
    forall k :: 0 <= k < |txs| ==>
      && TimeOf(txs[k]) == ScheduleTime(w, k)
      && txs[k].env.sender == sender
      && txs[k].call == Execute([UsdcSend(w.Amount())])
  }

  /** The last second of a schedule is one a block can have. */
  predicate ScheduleFits(w: Wallet, n: nat) {
    ScheduleTime(w, n) * 1_000_000_000 < TWO_64
  }

  lemma MakeSchedule(env: Env, w: Wallet, n: nat) returns (txs: seq<Tx>)
    requires NeverFails(w) && ScheduleFits(w, n)
    ensures |txs| == n + 1 && FollowsSchedule(txs, env.sender, w)
    ensures Ordered(txs) && NotAdded(txs, env.sender)
  {
    ScheduleOrder(w, n);
    txs := seq(n + 1, k requires 0 <= k <= n && ScheduleTime(w, k) * 1_000_000_000 < TWO_64 =>
      Tx(env.(time := ScheduleTime(w, k) * 1_000_000_000), Execute([UsdcSend(w.Amount())])));
  }

  lemma ScheduleOrder(w: Wallet, n: nat)
    requires NeverFails(w)
    ensures forall j, k :: 0 <= j <= k <= n ==> ScheduleTime(w, j) <= ScheduleTime(w, k)
  {
    forall j: nat, k: nat | j <= k <= n
      ensures ScheduleTime(w, j) <= ScheduleTime(w, k)
    {
      ScheduleTimesGrow(w, j, k);
    }
  }

  /** A full wallet, of a sender that owes nothing, whose period can always be computed. */
  predicate FullWallet(cfg: Config, sender: string, w: Wallet) {
    && cfg.uusdFeeDebt == 0 && !cfg.IsAdmin(sender) && cfg.GetWallet(sender) == Some(w)
    && w.spendLimits != [] && w.Remaining() == w.Amount() && NeverFails(w)
  }

  /** The sender just before transaction `k` of a schedule that started with `w`. */
  predicate ScheduleState(sender: string, w: Wallet, now: Config, k: nat) {
    && now.uusdFeeDebt == 0 && !now.IsAdmin(sender) && now.GetWallet(sender).Some?
    && (k == 0 ==> now.GetWallet(sender).value.Remaining() == w.Amount())
    && now.GetWallet(sender).value.currentPeriodReset
       == if k == 0 then w.currentPeriodReset else ScheduleTime(w, k) - 1
  }

  lemma OneMessageBatch(cfg: Config, env: Env, msg: CosmosMsg)
    requires !Unchecked(cfg, env) && msg.Bank? && CheckMsg(cfg, env, msg).Ok?
    ensures ExecuteExecute(cfg, env, [msg], false).Ok?
    ensures ExecuteExecute(cfg, env, [msg], false).value.cfg == CheckMsg(cfg, env, msg).value.cfg
  {
    var cfg' := CheckMsg(cfg, env, msg).value.cfg;
    assert [msg][0] == msg && [msg][1..] == [];
    assert CheckBatch(cfg', env, []) == Ok(Outcome(cfg', []));
    assert CheckBatch(cfg, env, [msg]).Ok? && CheckBatch(cfg, env, [msg]).value.cfg == cfg';
  }

  lemma OneMessageCharges(m: Market, msg: CosmosMsg)
    ensures MsgsCharges(m, [msg]) == SumCharges(m, SpentFunds(msg))
  {
    assert [msg][1..] == [];
  }

  /** At a scheduled time the whole amount is the limit, and the reset lies just before the next time. */
  lemma ScheduledWallet(w: Wallet, w': Wallet, now: Timestamp, k: nat)
    requires NeverFails(w) && SameSettings(w, w') && w'.spendLimits != []
    requires k == 0 ==> w'.Remaining() == w.Amount()
    requires w'.currentPeriodReset == if k == 0 then w.currentPeriodReset else ScheduleTime(w, k) - 1
    requires Seconds(now) == ScheduleTime(w, k)
    ensures w'.Amount() == w.Amount() == Applicable(w', now)
    ensures w'.ShouldReset(now) ==> w'.ResetPeriod(now).Ok?
    ensures ScheduleTime(w, k + 1) - 1
            == if w'.ShouldReset(now) then w'.ResetPeriod(now).value.currentPeriodReset else w'.currentPeriodReset
  {
    if k == 0 {
      assert !w'.ShouldReset(now);
    } else {
      RefillAt(w', now);
      assert w'.ShouldReset(now) && ResetAfter(w', Seconds(now)) == ResetAfter(w, ScheduleTime(w, k));
    }
  }

  /** The whole amount can be sent at a scheduled time, and leaves the wallet for the next one. */
  lemma ScheduledCheck(sender: string, w: Wallet, now: Config, env: Env, k: nat)
    requires NeverFails(w) && w.spendLimits != [] && ScheduleState(sender, w, now, k)
    requires SameSettings(w, now.GetWallet(sender).value)
    requires Seconds(env.time) == ScheduleTime(w, k) && env.sender == sender
    ensures CheckMsg(now, env, UsdcSend(w.Amount())).Ok?
    ensures ScheduleState(sender, w, CheckMsg(now, env, UsdcSend(w.Amount())).value.cfg, k + 1)
  {
    ScheduledWallet(w, now.GetWallet(sender).value, env.time, k);
    SpendAllOnce(now, env);
  }

  /** One scheduled send passes, charges the whole amount, and leaves the state for the next. */
  lemma ScheduleStep(sender: string, w: Wallet, now: Config, tx: Tx, k: nat)
    requires NeverFails(w) && w.spendLimits != [] && ScheduleState(sender, w, now, k)
    requires SameSettings(w, now.GetWallet(sender).value)
    requires TimeOf(tx) == ScheduleTime(w, k) && tx.env.sender == sender
    requires tx.call == Execute([UsdcSend(w.Amount())])
    ensures TxCharges(now, tx, sender) == w.Amount()
    ensures ScheduleState(sender, w, Apply(now, tx).cfg, k + 1)
  {
    ScheduledCheck(sender, w, now, tx.env, k);
    OneMessageBatch(now, tx.env, UsdcSend(w.Amount()));
    OneMessageCharges(now.MarketOn(tx.env.dex), UsdcSend(w.Amount()));
    UsdcSendCharge(now.MarketOn(tx.env.dex), w.Amount());
  }

  /** In a scheduled run the wallet keeps its settings. */
  lemma ScheduleKeepsSettings(cfg: Config, txs: seq<Tx>, sender: string, w: Wallet, k: nat)
    requires FullWallet(cfg, sender, w) && FollowsSchedule(txs, sender, w) && k <= |txs|
    ensures var w' := StateAt(cfg, txs, k).GetWallet(sender); w'.Some? ==> SameSettings(w, w'.value)
  {
    RunContinuesWallet(cfg, txs, sender, k);
  }

  lemma ScheduleStarts(cfg: Config, txs: seq<Tx>, sender: string, w: Wallet)
    requires FullWallet(cfg, sender, w)
    ensures ScheduleState(sender, w, StateAt(cfg, txs, 0), 0)
  {
  }

  lemma NextScheduleState(cfg: Config, txs: seq<Tx>, sender: string, w: Wallet, k: nat)
    requires FullWallet(cfg, sender, w) && FollowsSchedule(txs, sender, w) && k < |txs|
    requires ScheduleState(sender, w, StateAt(cfg, txs, k), k)
    ensures ScheduleState(sender, w, StateAt(cfg, txs, k + 1), k + 1)
  {
    ScheduleKeepsSettings(cfg, txs, sender, w, k);
    ScheduleStep(sender, w, StateAt(cfg, txs, k), txs[k], k);
  }

  /** Each transaction of the run leaves the schedule's state for the next one. */
  predicate KeepsSchedule(cfg: Config, txs: seq<Tx>, sender: string, w: Wallet) {
    forall k: nat :: k < |txs| && ScheduleState(sender, w, StateAt(cfg, txs, k), k)
                     ==> ScheduleState(sender, w, StateAt(cfg, txs, k + 1), k + 1)
  }

  lemma ScheduleIsKept(cfg: Config, txs: seq<Tx>, sender: string, w: Wallet)
    requires FullWallet(cfg, sender, w) && FollowsSchedule(txs, sender, w)
    ensures KeepsSchedule(cfg, txs, sender, w)
  {
    forall k: nat | k < |txs| && ScheduleState(sender, w, StateAt(cfg, txs, k), k)
      ensures ScheduleState(sender, w, StateAt(cfg, txs, k + 1), k + 1)
    {
      NextScheduleState(cfg, txs, sender, w, k);
    }
  }

  lemma {:induction false} ScheduleStates(cfg: Config, txs: seq<Tx>, sender: string, w: Wallet, k: nat)
    requires KeepsSchedule(cfg, txs, sender, w) && k <= |txs|
    requires ScheduleState(sender, w, StateAt(cfg, txs, 0), 0)
    ensures ScheduleState(sender, w, StateAt(cfg, txs, k), k)
  {
    if k > 0 {
      ScheduleStates(cfg, txs, sender, w, k - 1);
    }
  }

  lemma ScheduleChargeAt(cfg: Config, txs: seq<Tx>, sender: string, w: Wallet, k: nat)
    requires FullWallet(cfg, sender, w) && FollowsSchedule(txs, sender, w) && k < |txs|
    ensures TxCharges(StateAt(cfg, txs, k), txs[k], sender) == w.Amount()
  {
    ScheduleIsKept(cfg, txs, sender, w);
    ScheduleStarts(cfg, txs, sender, w);
    ScheduleStates(cfg, txs, sender, w, k);
    ScheduleKeepsSettings(cfg, txs, sender, w, k);
    ScheduleStep(sender, w, StateAt(cfg, txs, k), txs[k], k);
  }

  /** The clock at scheduled time `k`. */
  function ScheduleClock(w: Wallet, k: nat): nat {
    if k == 0 then Clock(w, w.currentPeriodReset)
    else if k == 1 then Clock(w, w.currentPeriodReset + 1)
    else ScheduleClock(w, k - 1) + Pace(w)
  }

  lemma {:induction false} ScheduleClockIsClock(w: Wallet, k: nat)
    requires NeverFails(w)
    ensures Clock(w, ScheduleTime(w, k)) == ScheduleClock(w, k)
  {
    if k > 1 {
      ScheduleClockIsClock(w, k - 1);
      NextPeriod(w, ScheduleTime(w, k - 1));
    }
  }

  lemma {:induction false} ScheduleClockGrows(w: Wallet, i: nat, n: nat)
    requires 1 <= i <= n
    ensures ScheduleClock(w, i) <= ScheduleClock(w, n)
    decreases n
  {
    if i < n {
      ScheduleClockGrows(w, i, n - 1);
    }
  }

  /** One amount for every period from scheduled time `i` to scheduled time `n`. */
  function ScheduleAllowance(w: Wallet, i: nat, n: nat): nat
    requires NeverFails(w)
  {
    Allowance(w.Amount(), ScheduleClock(w, i), ScheduleClock(w, n), Pace(w))
  }

  lemma ScheduleAllowanceStep(w: Wallet, i: nat, n: nat)
    requires NeverFails(w) && 1 <= i <= n + 1 && 1 <= n
    ensures ScheduleAllowance(w, i, n) == if i == n + 1 then 0 else w.Amount() + ScheduleAllowance(w, i + 1, n)
  {
    assert ScheduleClock(w, i + 1) == ScheduleClock(w, i) + Pace(w);
    assert ScheduleClock(w, n + 1) == ScheduleClock(w, n) + Pace(w);
    if i <= n {
      ScheduleClockGrows(w, i, n);
    }
  }

  /** A run whose every transaction charges the same amount charges it once for each. */
  lemma {:induction false} EqualCharges(cfg: Config, txs: seq<Tx>, addr: string, amount: nat, i: nat)
    requires i <= |txs|
    requires forall k :: i <= k < |txs| ==> TxCharges(StateAt(cfg, txs, k), txs[k], addr) == amount
    ensures RunCharges(cfg, txs, addr, i, |txs|) == amount * (|txs| - i)
    decreases |txs| - i
  {
    if i < |txs| {
      EqualCharges(cfg, txs, addr, amount, i + 1);
      OneMore(amount, |txs| - (i + 1));
    }
  }

  /** The scheduled times from 1 on are one for every period. */
  lemma {:induction false} ScheduleAllowanceCounts(w: Wallet, i: nat, n: nat)
    requires NeverFails(w) && 1 <= i <= n + 1 && 1 <= n
    ensures ScheduleAllowance(w, i, n) == w.Amount() * (n + 1 - i)
    decreases n + 1 - i
  {
    ScheduleAllowanceStep(w, i, n);
    if i <= n {
      ScheduleAllowanceCounts(w, i + 1, n);
      OneMore(w.Amount(), n - i);
    }
  }

  // ----- the bounds are reached

  lemma DayScheduleAllowance(w: Wallet, n: nat)
    requires w.periodType == DAYS
    ensures ScheduleTime(w, 0) <= ScheduleTime(w, n)
    ensures w.Amount() * (n + 1) == DayAllowance(w.Amount(), Pace(w), ScheduleTime(w, n) - ScheduleTime(w, 0))
  {
    ScheduleTimesGrow(w, 0, n);
    if n > 0 {
      var span := ScheduleTime(w, n) - w.currentPeriodReset;
      ScheduleAllowanceCounts(w, 1, n);
      ScheduleClockIsClock(w, n);
      AllowanceShift(w.Amount(), 1, span, Pace(w), w.currentPeriodReset);
      OneMore(w.Amount(), n);
    }
  }

  lemma MonthScheduleAllowance(w: Wallet, n: nat)
    requires w.periodType == MONTHS && 1 <= w.periodMultiple <= 11 && n >= 1
    requires MonthOf(w.currentPeriodReset) == MonthOf(w.currentPeriodReset + 1)
    ensures w.Amount() * (n + 1)
            == w.Amount()
               + Allowance(w.Amount(), MonthOf(ScheduleTime(w, 0)), MonthOf(ScheduleTime(w, n)), w.periodMultiple)
  {
    ScheduleAllowanceCounts(w, 1, n);
    ScheduleClockIsClock(w, n);
    OneMore(w.Amount(), n);
  }

  lemma LeftAtStart(cfg: Config, txs: seq<Tx>, addr: string)
    requires cfg.GetWallet(addr).Some?
    ensures LeftAt(cfg, txs, addr, 0) == cfg.GetWallet(addr).value.Remaining()
  {
  }

  /** A full wallet has, for every schedule whose times a block can have, a run that follows it. */
  lemma ScheduledRun(cfg: Config, env: Env, w: Wallet, n: nat) returns (txs: seq<Tx>)
    requires FullWallet(cfg, env.sender, w) && ScheduleFits(w, n)
    ensures |txs| == n + 1 && Ordered(txs) && NotAdded(txs, env.sender)
    ensures TimeOf(txs[0]) == ScheduleTime(w, 0) && TimeOf(txs[n]) == ScheduleTime(w, n)
    ensures RunCharges(cfg, txs, env.sender, 0, n + 1) == w.Amount() * (n + 1)
  {
    txs := MakeSchedule(env, w, n);
    forall k | 0 <= k < |txs|
      ensures TxCharges(StateAt(cfg, txs, k), txs[k], env.sender) == w.Amount()
    {
      ScheduleChargeAt(cfg, txs, env.sender, w, k);
    }
    EqualCharges(cfg, txs, env.sender, w.Amount(), 0);
  }

  /**
   The rate bound for days is reached: a full wallet has, for every schedule whose times a
   block can have, an ordered run whose charges equal the bound.
   */
  lemma DayRateBoundIsReached(cfg: Config, env: Env, w: Wallet, n: nat) returns (txs: seq<Tx>)
    requires FullWallet(cfg, env.sender, w) && w.periodType == DAYS && ScheduleFits(w, n)
    ensures |txs| == n + 1 && Ordered(txs) && NotAdded(txs, env.sender) && TimeOf(txs[0]) <= TimeOf(txs[n])
    ensures RunCharges(cfg, txs, env.sender, 0, n + 1)
            == DayAllowance(w.Amount(), Pace(w), TimeOf(txs[n]) - TimeOf(txs[0]))
  {
    txs := ScheduledRun(cfg, env, w, n);
    DayScheduleAllowance(w, n);
  }

  /**
   The rate bound for months is reached as well, for every multiple that never fails: the
   run starts with what is left in the last second before a reset within a month.
   */
  lemma MonthRateBoundIsReached(cfg: Config, env: Env, w: Wallet, n: nat) returns (txs: seq<Tx>)
    requires FullWallet(cfg, env.sender, w) && w.periodType == MONTHS && ScheduleFits(w, n)
    requires n >= 1 && MonthOf(w.currentPeriodReset) == MonthOf(w.currentPeriodReset + 1)
    ensures |txs| == n + 1 && Ordered(txs) && NotAdded(txs, env.sender)
    ensures RunCharges(cfg, txs, env.sender, 0, n + 1)
            == LeftAt(cfg, txs, env.sender, 0)
               + Allowance(w.Amount(), MonthOf(TimeOf(txs[0])), MonthOf(TimeOf(txs[n])), w.periodMultiple)
  {
    txs := ScheduledRun(cfg, env, w, n);
    MonthScheduleAllowance(w, n);
    LeftAtStart(cfg, txs, env.sender);
  }
}
