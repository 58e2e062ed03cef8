/** Runs of the machine: transactions one after another, and what every run keeps. */
module Runs {
  import opened SpendProperties
  import opened Submsgs
  import opened States
  import opened WalletLists
  import opened Machine
  import opened Frames
  import opened ExecuteProperties
  import opened EntryPoints

  /** The configuration after the first `n` transactions. */
  function StateAt(cfg: Config, txs: seq<Tx>, n: nat): Config
    requires n <= |txs|
  {
    if n == 0 then cfg else Apply(StateAt(cfg, txs, n - 1), txs[n - 1]).cfg
  }

  /** What transaction `n` sends out. */
  function SentAt(cfg: Config, txs: seq<Tx>, n: nat): seq<Outgoing>
    requires n < |txs|
  {
    Apply(StateAt(cfg, txs, n), txs[n]).sent
  }

  // ----- the wallet list

  lemma StepKeepsWalletList(cfg: Config, tx: Tx)
    requires DistinctAddresses(cfg.hotWallets) && WithinLimits(cfg.hotWallets)
    requires tx.call.AddHotWallet? ==> tx.call.newHotWallet.Remaining() <= tx.call.newHotWallet.Amount()
    ensures DistinctAddresses(Apply(cfg, tx).cfg.hotWallets) && WithinLimits(Apply(cfg, tx).cfg.hotWallets)
  {
    if Step(cfg, tx).Ok? {
      match tx.call
      case Execute(msgs) => ExecuteKeepsWalletList(cfg, tx.env, msgs, false);
      case SimExecute(msgs) => ExecuteKeepsWalletList(cfg, tx.env, msgs, true);
      case RmHotWallet(doomed) => RetainKeeps(cfg.hotWallets, doomed);
      case _ =>
    }
  }

  lemma ExecuteKeepsWalletList(cfg: Config, env: Env, msgs: seq<CosmosMsg>, simulation: bool)
    requires DistinctAddresses(cfg.hotWallets) && WithinLimits(cfg.hotWallets)
    requires ExecuteExecute(cfg, env, msgs, simulation).Ok?
    ensures var ws' := ExecuteExecute(cfg, env, msgs, simulation).value.cfg.hotWallets;
            DistinctAddresses(ws') && WithinLimits(ws')
  {
    ExecuteOnlySpends(cfg, env, msgs, simulation);
    OnlySpentKeepsAddresses(cfg, ExecuteExecute(cfg, env, msgs, simulation).value.cfg, env.sender, env.sender);
    if !Unchecked(cfg, env) && !Shortcut(cfg, env.sender, msgs[0]) {
      CheckBatchKeepsLimits(cfg, env, msgs);
    }
  }

  lemma CheckMsgKeepsLimits(cfg: Config, env: Env, msg: CosmosMsg)
    requires WithinLimits(cfg.hotWallets) && CheckMsg(cfg, env, msg).Ok?
    ensures WithinLimits(CheckMsg(cfg, env, msg).value.cfg.hotWallets)
  {
    if TypeOf(msg).Limited() && !cfg.IsAdmin(env.sender) {
      var settled := SettleDebt(cfg, env.dex, SpentFunds(msg)).value.cfg;
      var w := cfg.hotWallets[FindWallet(cfg.hotWallets, env.sender)];
      AccessIsExact(w, settled.MarketOn(env.dex), env.time, SpentFunds(msg));
    }
  }

  lemma {:induction false} CheckBatchKeepsLimits(cfg: Config, env: Env, msgs: seq<CosmosMsg>)
    requires WithinLimits(cfg.hotWallets) && CheckBatch(cfg, env, msgs).Ok?
    ensures WithinLimits(CheckBatch(cfg, env, msgs).value.cfg.hotWallets)
    decreases |msgs|
  {
    if msgs != [] {
      CheckMsgKeepsLimits(cfg, env, msgs[0]);
      CheckBatchKeepsLimits(CheckMsg(cfg, env, msgs[0]).value.cfg, env, msgs[1..]);
    }
  }

  /**
   Distinct addresses, and limits never above their amounts, last through every run whose
   added wallets start within their limits.
   */
  lemma {:induction false} RunKeepsWalletList(cfg: Config, txs: seq<Tx>, n: nat)
    requires n <= |txs|
    requires DistinctAddresses(cfg.hotWallets) && WithinLimits(cfg.hotWallets)
    requires forall tx :: tx in txs && tx.call.AddHotWallet? ==>
                            tx.call.newHotWallet.Remaining() <= tx.call.newHotWallet.Amount()
    ensures DistinctAddresses(StateAt(cfg, txs, n).hotWallets) && WithinLimits(StateAt(cfg, txs, n).hotWallets)
  {
    if n > 0 {
      RunKeepsWalletList(cfg, txs, n - 1);
      StepKeepsWalletList(StateAt(cfg, txs, n - 1), txs[n - 1]);
    }
  }

  // ----- fee debt

  /** A step leaves the debt or clears it; it sends one repayment exactly when an execute clears it. */
  lemma StepRepayments(cfg: Config, tx: Tx)
    ensures var Outcome(cfg', sent) := Apply(cfg, tx);
            && cfg'.feeLendRepayWallet == cfg.feeLendRepayWallet
            && (cfg'.uusdFeeDebt == cfg.uusdFeeDebt || cfg'.uusdFeeDebt == 0)
            && CountRepayments(sent)
               == if tx.call.Execute? && cfg.uusdFeeDebt > 0 && cfg'.uusdFeeDebt == 0 then 1 else 0
  {
    if Step(cfg, tx).Ok? {
      match tx.call
      case Execute(msgs) =>
        ExecuteOnlySpends(cfg, tx.env, msgs, false);
        MessagesAreConserved(cfg, tx.env, msgs);
      case SimExecute(msgs) =>
        ExecuteOnlySpends(cfg, tx.env, msgs, true);
      case _ =>
    }
  }

  function TotalRepayments(cfg: Config, txs: seq<Tx>, n: nat): nat
    requires n <= |txs|
  {
    if n == 0 then 0 else TotalRepayments(cfg, txs, n - 1) + CountRepayments(SentAt(cfg, txs, n - 1))
  }

  /** Transaction `i` of a run takes the debt from positive to 0. */
  predicate ClearsDebtAt(cfg: Config, txs: seq<Tx>, i: nat)
    requires i < |txs|
  {
    StateAt(cfg, txs, i).uusdFeeDebt > 0 && StateAt(cfg, txs, i + 1).uusdFeeDebt == 0
  }

  /** One of the first `n` transactions cleared the debt. */
  predicate Cleared(cfg: Config, txs: seq<Tx>, n: nat)
    requires n <= |txs|
  {
    n > 0 && (Cleared(cfg, txs, n - 1) || ClearsDebtAt(cfg, txs, n - 1))
  }

  /** One of the first `n` transactions cleared the debt, and it was an execute. */
  predicate ClearedByExecute(cfg: Config, txs: seq<Tx>, n: nat)
    requires n <= |txs|
  {
    n > 0 && (ClearedByExecute(cfg, txs, n - 1) || (ClearsDebtAt(cfg, txs, n - 1) && txs[n - 1].call.Execute?))
  }

  lemma DebtAfterStep(cfg: Config, txs: seq<Tx>, n: nat)
    requires n < |txs|
    ensures || StateAt(cfg, txs, n + 1).uusdFeeDebt == StateAt(cfg, txs, n).uusdFeeDebt
            || StateAt(cfg, txs, n + 1).uusdFeeDebt == 0
    ensures ClearsDebtAt(cfg, txs, n) ==> txs[n].call.Execute? || txs[n].call.SimExecute?
    ensures CountRepayments(SentAt(cfg, txs, n))
            == if ClearsDebtAt(cfg, txs, n) && txs[n].call.Execute? then 1 else 0
  {
    StepRepayments(StateAt(cfg, txs, n), txs[n]);
    StepClearsByExecuting(StateAt(cfg, txs, n), txs[n]);
  }

  /** The debt is the initial one until a transaction, an execute or a simulation, clears it. */
  lemma {:induction false} DebtIsClearedOnce(cfg: Config, txs: seq<Tx>, n: nat)
    requires n <= |txs|
    ensures StateAt(cfg, txs, n).uusdFeeDebt == if Cleared(cfg, txs, n) then 0 else cfg.uusdFeeDebt
    ensures Cleared(cfg, txs, n) ==> cfg.uusdFeeDebt > 0
  {
    if n > 0 {
      DebtIsClearedOnce(cfg, txs, n - 1);
      DebtAfterStep(cfg, txs, n - 1);
    }
  }

  lemma {:induction false} ClearedByExecuteIsCleared(cfg: Config, txs: seq<Tx>, n: nat)
    requires n <= |txs|
    ensures ClearedByExecute(cfg, txs, n) ==> Cleared(cfg, txs, n)
    ensures (forall i :: 0 <= i < n ==> !txs[i].call.SimExecute?)
            ==> (ClearedByExecute(cfg, txs, n) <==> Cleared(cfg, txs, n))
  {
    if n > 0 {
      ClearedByExecuteIsCleared(cfg, txs, n - 1);
      DebtAfterStep(cfg, txs, n - 1);
    }
  }

  /** How many of the first `n` transactions are executes that cleared the debt. */
  function ClearingExecutes(cfg: Config, txs: seq<Tx>, n: nat): nat
    requires n <= |txs|
  {
    if n == 0 then 0
    else
      ClearingExecutes(cfg, txs, n - 1)
      + if ClearsDebtAt(cfg, txs, n - 1) && txs[n - 1].call.Execute? then 1 else 0
  }

  /** What an execute has cleared is not cleared again. */
  lemma ClearedStaysCleared(cfg: Config, txs: seq<Tx>, n: nat)
    requires n < |txs|
    ensures ClearedByExecute(cfg, txs, n) ==> !ClearsDebtAt(cfg, txs, n)
  {
    DebtIsClearedOnce(cfg, txs, n);
    ClearedByExecuteIsCleared(cfg, txs, n);
  }

  lemma {:induction false} AtMostOneClears(cfg: Config, txs: seq<Tx>, n: nat)
    requires n <= |txs|
    ensures ClearingExecutes(cfg, txs, n) == if ClearedByExecute(cfg, txs, n) then 1 else 0
  {
    if n > 0 {
      AtMostOneClears(cfg, txs, n - 1);
      ClearedStaysCleared(cfg, txs, n - 1);
    }
  }

  lemma {:induction false} EachClearingIsRepaid(cfg: Config, txs: seq<Tx>, n: nat)
    requires n <= |txs|
    ensures TotalRepayments(cfg, txs, n) == ClearingExecutes(cfg, txs, n)
  {
    if n > 0 {
      EachClearingIsRepaid(cfg, txs, n - 1);
      DebtAfterStep(cfg, txs, n - 1);
    }
  }

  /**
   In every run, simulations included, one repayment is sent in all when an execute cleared
   the debt, and none when a simulation did or the debt is still there.
   */
  lemma DebtIsRepaidOnce(cfg: Config, txs: seq<Tx>, n: nat)
    requires n <= |txs|
    ensures TotalRepayments(cfg, txs, n) == if ClearedByExecute(cfg, txs, n) then 1 else 0
  {
    EachClearingIsRepaid(cfg, txs, n);
    AtMostOneClears(cfg, txs, n);
  }

  /** Without simulations, one repayment is sent exactly when the debt went from positive to 0. */
  lemma RepaidWithoutSimulations(cfg: Config, txs: seq<Tx>, n: nat)
    requires n <= |txs| && forall i :: 0 <= i < n ==> !txs[i].call.SimExecute?
    ensures TotalRepayments(cfg, txs, n)
            == if cfg.uusdFeeDebt > 0 && StateAt(cfg, txs, n).uusdFeeDebt == 0 then 1 else 0
  {
    DebtIsClearedOnce(cfg, txs, n);
    DebtIsRepaidOnce(cfg, txs, n);
    ClearedByExecuteIsCleared(cfg, txs, n);
  }

  lemma StepClearsByExecuting(cfg: Config, tx: Tx)
    ensures Apply(cfg, tx).cfg.uusdFeeDebt != cfg.uusdFeeDebt ==> tx.call.Execute? || tx.call.SimExecute?
  {
  }

  /** Where the repayment of a step is: just before a spending message, in a coin it can pay with. */
  lemma RepaymentPlace(cfg: Config, tx: Tx)
    requires CountRepayments(Apply(cfg, tx).sent) > 0
    ensures tx.call.Execute?
    ensures var msgs, sent := tx.call.msgs, Apply(cfg, tx).sent;
            var i := FirstLimited(msgs);
            && i < |msgs| && |sent| == |msgs| + 1
            && sent[i + 1] == Forwarded(msgs[i])
            && var coin := DebtCoin(cfg.MarketOn(tx.env.dex), cfg.uusdFeeDebt, SpentFunds(msgs[i]));
            && coin.Some?
            && sent[i] == Repayment(Bank(BankMsg.Send(cfg.feeLendRepayWallet, [coin.value])))
  {
    StepRepayments(cfg, tx);
    var msgs := tx.call.msgs;
    MessagesAreConserved(cfg, tx.env, msgs);
    CheckBatchOutput(cfg, tx.env, msgs);
  }

  predicate SameTable(cfg: Config, cfg': Config) {
    && cfg'.pairContracts == cfg.pairContracts && cfg'.homeNetwork == cfg.homeNetwork
    && cfg'.feeLendRepayWallet == cfg.feeLendRepayWallet
  }

  lemma StepKeepsTable(cfg: Config, tx: Tx)
    requires Step(cfg, tx).Ok?
    ensures SameTable(cfg, Step(cfg, tx).value.cfg)
  {
    match tx.call
    case Execute(msgs) => ExecuteOnlySpends(cfg, tx.env, msgs, false);
    case SimExecute(msgs) => ExecuteOnlySpends(cfg, tx.env, msgs, true);
    case _ =>
  }

  /** The pair table, the network and the repay wallet are those of instantiation for ever. */
  lemma {:induction false} RunKeepsTable(cfg: Config, txs: seq<Tx>, n: nat)
    requires n <= |txs|
    ensures SameTable(cfg, StateAt(cfg, txs, n))
  {
    if n > 0 {
      RunKeepsTable(cfg, txs, n - 1);
      var before := StateAt(cfg, txs, n - 1);
      if Step(before, txs[n - 1]).Ok? {
        StepKeepsTable(before, txs[n - 1]);
      }
    }
  }

  // ----- simulation

  /** A simulation of a transaction: the same one, or the execute turned into a simulated one. */
  function Simulated(tx: Tx): Tx {
    if tx.call.Execute? then tx.(call := SimExecute(tx.call.msgs)) else tx
  }

  function SimulatedRun(txs: seq<Tx>): (sims: seq<Tx>)
    ensures |sims| == |txs| && forall i :: 0 <= i < |txs| ==> sims[i] == Simulated(txs[i])
  {
    seq(|txs|, i requires 0 <= i < |txs| => Simulated(txs[i]))
  }

  /** All that a simulation sends out: the one call of a shortcut, which ignores the flag. */
  function SimulatedOutput(cfg: Config, tx: Tx): seq<Outgoing> {
    if tx.call.Execute? || tx.call.SimExecute? then
      if !Unchecked(cfg, tx.env) && tx.call.msgs != [] && Shortcut(cfg, tx.env.sender, tx.call.msgs[0])
      then [Forwarded(tx.call.msgs[0])] else []
    else []
  }

  /**
   A simulation succeeds exactly when its execute does and leaves the same state; it sends
   out one message when an execute would take the shortcut, and otherwise none.
   */
  lemma SimulationStep(cfg: Config, tx: Tx)
    ensures Step(cfg, Simulated(tx)).Ok? <==> Step(cfg, tx).Ok?
    ensures Apply(cfg, Simulated(tx)).cfg == Apply(cfg, tx).cfg
    ensures Apply(cfg, Simulated(tx)).sent == SimulatedOutput(cfg, tx)
  {
  }

  lemma {:induction false} SimulationStates(cfg: Config, txs: seq<Tx>, n: nat)
    requires n <= |txs|
    ensures StateAt(cfg, SimulatedRun(txs), n) == StateAt(cfg, txs, n)
  {
    if n > 0 {
      SimulationStates(cfg, txs, n - 1);
      SimulationStep(StateAt(cfg, txs, n - 1), txs[n - 1]);
    }
  }

  /** Simulating goes through the same states, and sends out exactly the shortcut calls. */
  lemma SimulationFollowsRun(cfg: Config, txs: seq<Tx>, n: nat)
    requires n <= |txs|
    ensures StateAt(cfg, SimulatedRun(txs), n) == StateAt(cfg, txs, n)
    ensures n < |txs| ==>
              var now := StateAt(cfg, txs, n);
              && (Step(now, SimulatedRun(txs)[n]).Ok? <==> Step(now, txs[n]).Ok?)
              && SentAt(cfg, SimulatedRun(txs), n) == SimulatedOutput(now, txs[n])
  {
    SimulationStates(cfg, txs, n);
    if n < |txs| {
      SimulationStep(StateAt(cfg, txs, n), txs[n]);
    }
  }

  // ----- admin handover

  /**
   Transaction `i` proposed what is pending now, was sent by the address that is admin now,
   and the admin has not changed since.
   */
  ghost predicate ProposedAt(cfg: Config, txs: seq<Tx>, n: nat, i: nat)
    requires i < n <= |txs|
  {
    var now := StateAt(cfg, txs, n);
    && txs[i].call == ProposeUpdateAdmin(now.pending)
    && Step(StateAt(cfg, txs, i), txs[i]).Ok?
    && txs[i].env.sender == now.admin
    && forall j :: i <= j <= n ==> StateAt(cfg, txs, j).admin == now.admin
  }

  ghost predicate PendingIsAccountedFor(cfg: Config, txs: seq<Tx>, n: nat)
    requires n <= |txs|
  {
    || StateAt(cfg, txs, n).pending == StateAt(cfg, txs, n).admin
    || exists i: nat :: i < n && ProposedAt(cfg, txs, n, i)
  }

  /** How one step may change admin and pending. */
  lemma AdminStep(cfg: Config, tx: Tx)
    ensures var cfg' := Apply(cfg, tx).cfg;
            || (cfg'.admin == cfg.admin && cfg'.pending == cfg.pending)
            || (cfg'.admin == cfg.admin && tx.call == ProposeUpdateAdmin(cfg'.pending) && tx.env.sender == cfg.admin)
            || (cfg'.admin == cfg.admin == cfg'.pending && tx.call.CancelUpdateAdmin? && tx.env.sender == cfg.pending)
            || (cfg'.admin == cfg.pending == cfg'.pending && tx.call.ConfirmUpdateAdmin?
                && tx.env.sender == cfg.pending)
    ensures Apply(cfg, tx).cfg.pending != cfg.pending ==> Step(cfg, tx).Ok?
  {
    if Step(cfg, tx).Ok? {
      if tx.call.Execute? || tx.call.SimExecute? {
        ExecuteOnlySpends(cfg, tx.env, tx.call.msgs, tx.call.SimExecute?);
      }
    }
  }

  lemma ProposalPersists(cfg: Config, txs: seq<Tx>, n: nat, i: nat)
    requires i < n < |txs| && ProposedAt(cfg, txs, n, i)
    requires StateAt(cfg, txs, n + 1).admin == StateAt(cfg, txs, n).admin
    requires StateAt(cfg, txs, n + 1).pending == StateAt(cfg, txs, n).pending
    ensures ProposedAt(cfg, txs, n + 1, i)
  {
  }

  /** In every reachable state, what is pending is the admin or was proposed by the present admin. */
  lemma {:induction false} PendingWasProposed(cfg: Config, txs: seq<Tx>, n: nat)
    requires n <= |txs| && cfg.pending == cfg.admin
    ensures PendingIsAccountedFor(cfg, txs, n)
  {
    if n > 0 {
      PendingWasProposed(cfg, txs, n - 1);
      var before, tx, now := StateAt(cfg, txs, n - 1), txs[n - 1], StateAt(cfg, txs, n);
      AdminStep(before, tx);
      if now.admin == before.admin && now.pending == before.pending {
        if now.pending != now.admin {
          var i: nat :| i < n - 1 && ProposedAt(cfg, txs, n - 1, i);
          ProposalPersists(cfg, txs, n - 1, i);
        }
      } else if now.pending != now.admin {
        assert ProposedAt(cfg, txs, n, n - 1);
      }
    }
  }

  /** A step changes the admin exactly by a valid confirmation from a pending address that is not admin. */
  lemma AdminChanges(cfg: Config, tx: Tx)
    ensures Apply(cfg, tx).cfg.admin != cfg.admin
            <==> && tx.call.ConfirmUpdateAdmin? && AllValidAddrs(tx.env.validAddr, tx.call.signers)
                 && tx.env.sender == cfg.pending != cfg.admin
    ensures Apply(cfg, tx).cfg.admin != cfg.admin ==> Apply(cfg, tx).cfg.admin == tx.env.sender
  {
    AdminStep(cfg, tx);
    if tx.call.ConfirmUpdateAdmin? {
      ConfirmIsExact(cfg, tx.env, tx.call.signers);
    }
  }

  /**
   The admin changes exactly by a confirmation with valid signers from a pending address
   that is not admin; that address becomes admin, and it was proposed by the predecessor
   while that predecessor was admin, without a change in between.
   */
  lemma AdminHandover(cfg: Config, txs: seq<Tx>, n: nat)
    requires n < |txs| && cfg.pending == cfg.admin
    ensures var before, now := StateAt(cfg, txs, n), StateAt(cfg, txs, n + 1);
            && (now.admin != before.admin
                <==> && txs[n].call.ConfirmUpdateAdmin?
                     && AllValidAddrs(txs[n].env.validAddr, txs[n].call.signers)
                     && txs[n].env.sender == before.pending != before.admin)
            && (now.admin != before.admin ==>
                  && now.admin == txs[n].env.sender
                  && exists i: nat :: i < n && ProposedAt(cfg, txs, n, i)
                                      && txs[i].call == ProposeUpdateAdmin(now.admin)
                                      && txs[i].env.sender == before.admin)
  {
    AdminChanges(StateAt(cfg, txs, n), txs[n]);
    if StateAt(cfg, txs, n + 1).admin != StateAt(cfg, txs, n).admin {
      PendingWasProposed(cfg, txs, n);
      var i: nat :| i < n && ProposedAt(cfg, txs, n, i);
      assert txs[i].call == ProposeUpdateAdmin(StateAt(cfg, txs, n + 1).admin);
    }
  }

  /** No proposal and no cancellation succeeds among the transactions `i` to `j`. */
  predicate Undisturbed(cfg: Config, txs: seq<Tx>, i: nat, j: nat)
    requires i <= j <= |txs|
  {
    forall k :: i <= k < j && (txs[k].call.ProposeUpdateAdmin? || txs[k].call.CancelUpdateAdmin?)
                ==> Step(StateAt(cfg, txs, k), txs[k]).Err?
  }

  lemma {:induction false} PendingStays(cfg: Config, txs: seq<Tx>, i: nat, j: nat)
    requires i <= j <= |txs| && Undisturbed(cfg, txs, i, j)
    ensures StateAt(cfg, txs, j).pending == StateAt(cfg, txs, i).pending
    decreases j
  {
    if i < j {
      PendingStays(cfg, txs, i, j - 1);
      AdminStep(StateAt(cfg, txs, j - 1), txs[j - 1]);
    }
  }

  /**
   A successful proposal makes the proposed address admin as soon as it confirms with valid
   signers, whatever else happens in between but another proposal or a cancellation; and
   nobody else's confirmation succeeds.
   */
  lemma ProposeThenConfirm(cfg: Config, txs: seq<Tx>, i: nat, j: nat)
    requires i < j < |txs| && Undisturbed(cfg, txs, i + 1, j)
    requires txs[i].call.ProposeUpdateAdmin? && txs[j].call.ConfirmUpdateAdmin?
    requires txs[i].env.sender == StateAt(cfg, txs, i).admin && txs[i].env.validAddr(txs[i].call.newAdmin)
    ensures StateAt(cfg, txs, j).pending == txs[i].call.newAdmin
    ensures var confirmed := Step(StateAt(cfg, txs, j), txs[j]).Ok?;
            && (confirmed <==> && txs[j].env.sender == txs[i].call.newAdmin
                               && AllValidAddrs(txs[j].env.validAddr, txs[j].call.signers))
            && (confirmed ==> StateAt(cfg, txs, j + 1).admin == txs[i].call.newAdmin)
  {
    ProposeIsExact(StateAt(cfg, txs, i), txs[i].env, txs[i].call.newAdmin);
    PendingStays(cfg, txs, i + 1, j);
    ConfirmIsExact(StateAt(cfg, txs, j), txs[j].env, txs[j].call.signers);
  }
}
