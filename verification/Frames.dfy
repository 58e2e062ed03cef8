/** Who may do what, and what each call leaves alone. */
module Frames {
  import opened HotWallets
  import opened SpendProperties
  import opened Submsgs
  import opened States
  import opened Machine

  // ----- the wallet list

  predicate SameAddresses(ws: seq<Wallet>, ws': seq<Wallet>) {
    |ws| == |ws'| && forall i :: 0 <= i < |ws| ==> ws[i].address == ws'[i].address
  }

  lemma FindWalletByAddress(ws: seq<Wallet>, ws': seq<Wallet>, addr: string)
    requires SameAddresses(ws, ws')
    ensures FindWallet(ws, addr) == FindWallet(ws', addr)
  {
  }

  /** The first wallet of `addr` may differ in what is left and when it resets; all else is equal. */
  ghost predicate OnlyOneSpent(ws: seq<Wallet>, ws': seq<Wallet>, addr: string) {
    && |ws| == |ws'|
    && forall i :: 0 <= i < |ws| ==>
         if i == FindWallet(ws, addr) then SameSettings(ws[i], ws'[i]) else ws[i] == ws'[i]
  }

  /** What an execute by `sender` may change: the debt to 0, and a hot wallet's own limit and reset. */
  ghost predicate OnlySpent(cfg: Config, cfg': Config, sender: string) {
    && cfg' == cfg.(uusdFeeDebt := cfg'.uusdFeeDebt, hotWallets := cfg'.hotWallets)
    && (cfg'.uusdFeeDebt == cfg.uusdFeeDebt || cfg'.uusdFeeDebt == 0)
    && OnlyOneSpent(cfg.hotWallets, cfg'.hotWallets, sender)
    && (cfg.IsAdmin(sender) ==> cfg'.hotWallets == cfg.hotWallets)
  }

  lemma OnlySpentKeepsAddresses(cfg: Config, cfg': Config, sender: string, addr: string)
    requires OnlySpent(cfg, cfg', sender)
    ensures SameAddresses(cfg.hotWallets, cfg'.hotWallets)
    ensures FindWallet(cfg.hotWallets, addr) == FindWallet(cfg'.hotWallets, addr)
    ensures cfg'.IsActiveHotWallet(addr) <==> cfg.IsActiveHotWallet(addr)
    ensures addr != sender ==> cfg'.GetWallet(addr) == cfg.GetWallet(addr)
  {
    FindWalletByAddress(cfg.hotWallets, cfg'.hotWallets, addr);
  }

  lemma OnlySpentTwice(cfg: Config, mid: Config, cfg': Config, sender: string)
    requires OnlySpent(cfg, mid, sender) && OnlySpent(mid, cfg', sender)
    ensures OnlySpent(cfg, cfg', sender)
  {
    OnlySpentKeepsAddresses(cfg, mid, sender, sender);
    var i := FindWallet(cfg.hotWallets, sender);
    if i < |cfg.hotWallets| {
      var w, w1, w2 := cfg.hotWallets[i], mid.hotWallets[i], cfg'.hotWallets[i];
      assert w2 == w1.WithRemaining(w2.Remaining()).(currentPeriodReset := w2.currentPeriodReset);
    }
  }

  lemma CheckMsgOnlySpends(cfg: Config, env: Env, msg: CosmosMsg)
    requires CheckMsg(cfg, env, msg).Ok?
    ensures OnlySpent(cfg, CheckMsg(cfg, env, msg).value.cfg, env.sender)
  {
    if TypeOf(msg).Limited() && !cfg.IsAdmin(env.sender) {
      var settled := SettleDebt(cfg, env.dex, SpentFunds(msg)).value.cfg;
      var i := FindWallet(cfg.hotWallets, env.sender);
      AccessIsExact(cfg.hotWallets[i], settled.MarketOn(env.dex), env.time, SpentFunds(msg));
    }
  }

  lemma {:induction false} CheckBatchOnlySpends(cfg: Config, env: Env, msgs: seq<CosmosMsg>)
    requires CheckBatch(cfg, env, msgs).Ok?
    ensures OnlySpent(cfg, CheckBatch(cfg, env, msgs).value.cfg, env.sender)
    decreases |msgs|
  {
    if msgs != [] {
      var first := CheckMsg(cfg, env, msgs[0]).value;
      CheckMsgOnlySpends(cfg, env, msgs[0]);
      CheckBatchOnlySpends(first.cfg, env, msgs[1..]);
      OnlySpentTwice(cfg, first.cfg, CheckBatch(cfg, env, msgs).value.cfg, env.sender);
    }
  }

  // ----- authority

  /** The roles a successful call needs; `pending` may confirm and also cancel. */
  predicate Authorized(cfg: Config, tx: Tx) {
    match tx.call
    case Execute(_) => cfg.IsAdmin(tx.env.sender) || cfg.IsActiveHotWallet(tx.env.sender)
    case SimExecute(_) => cfg.IsAdmin(tx.env.sender) || cfg.IsActiveHotWallet(tx.env.sender)
    case ConfirmUpdateAdmin(_) => cfg.IsPending(tx.env.sender)
    case CancelUpdateAdmin => cfg.IsPending(tx.env.sender)
    case _ => cfg.IsAdmin(tx.env.sender)
  }

  lemma StepNeedsAuthority(cfg: Config, tx: Tx)
    requires Step(cfg, tx).Ok?
    ensures Authorized(cfg, tx)
  {
  }

  /**
   A sender that is neither admin nor pending nor a listed hot wallet gets every call
   aborted: no change of state and no message, whatever the messages, debt and prices.
   */
  lemma OutsidersAreRefused(cfg: Config, tx: Tx)
    requires !cfg.IsAdmin(tx.env.sender) && !cfg.IsPending(tx.env.sender) && !cfg.IsActiveHotWallet(tx.env.sender)
    ensures Apply(cfg, tx) == Outcome(cfg, [])
  {
    if Step(cfg, tx).Ok? {
      StepNeedsAuthority(cfg, tx);
      assert false;
    }
  }

  lemma ExecuteOnlySpends(cfg: Config, env: Env, msgs: seq<CosmosMsg>, simulation: bool)
    requires ExecuteExecute(cfg, env, msgs, simulation).Ok?
    ensures OnlySpent(cfg, ExecuteExecute(cfg, env, msgs, simulation).value.cfg, env.sender)
  {
    if !Unchecked(cfg, env) && !Shortcut(cfg, env.sender, msgs[0]) {
      CheckBatchOnlySpends(cfg, env, msgs);
    }
  }

  /**
   A sender that is neither admin nor pending can at most spend: admin, pending, every other
   wallet, all periods and amounts, the pair table and the repay wallet stay as they are.
   */
  lemma HotWalletsOnlySpend(cfg: Config, tx: Tx)
    requires !cfg.IsAdmin(tx.env.sender) && !cfg.IsPending(tx.env.sender)
    ensures OnlySpent(cfg, Apply(cfg, tx).cfg, tx.env.sender)
  {
    if Step(cfg, tx).Ok? {
      StepNeedsAuthority(cfg, tx);
      ExecuteOnlySpends(cfg, tx.env, tx.call.msgs, tx.call.SimExecute?);
    }
  }
}
