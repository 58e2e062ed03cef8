/**
 The contract's code over its one storage item. Every method is proved against the state
 machine; storage is written early, as in the source, and only the transaction boundary
 undoes it.
 */
module Proxies {
  import opened Prelude
  import opened HotWallets
  import opened Submsgs
  import opened States
  import opened Machine

  class Proxy {
    var stored: Config

    constructor (cfg: Config)
      ensures stored == cfg
    {
      stored := cfg;
    }

    /** The configuration is saved before the signers are checked; a bad signer relies on the rollback. */
    method InstantiateContract(validAddr: string -> bool, msg: InstantiateMsg) returns (r: Result<()>)
      modifies this
      ensures match Instantiate(validAddr, msg)
              case Ok(cfg) => r == Ok(()) && stored == cfg
              case Err(e) =>
                && r == Err(e)
                && stored == match Instantiate(validAddr, msg.(signers := []))
                             case Ok(saved) => saved
                             case Err(_) => old(stored)
    {
      var _ :- ValidateAll(validAddr, [msg.admin, msg.feeLendRepayWallet]);
      for i := 0 to |msg.hotWallets|
        invariant AllValid(msg.hotWallets[i..]) == AllValid(msg.hotWallets)
      {
        assert msg.hotWallets[i..][1..] == msg.hotWallets[i + 1..];
        var _ :- msg.hotWallets[i].AssertIsValid();
      }
      var cfg := new State(Config(msg.admin, msg.admin, msg.hotWallets, msg.uusdFeeDebt,
                                  msg.feeLendRepayWallet, msg.homeNetwork, []));
      var _ :- cfg.SetPairContracts(msg.homeNetwork);
      stored := cfg.Data();
      var _ :- ValidateAll(validAddr, msg.signers);
      return Ok(());
    }

    /** Clears the debt in storage at once; the caller's later failure relies on the rollback. */
    method TryRepayDebt(env: Env, asset: Coin) returns (r: Result<CosmosMsg>)
      modifies this
      ensures match old(stored).MarketOn(env.dex).ConvertDebtToAssetSpent(old(stored).uusdFeeDebt, asset.denom)
              case Ok(coin) => r == Ok(RepayMsg(old(stored), coin)) && stored == old(stored).(uusdFeeDebt := 0)
              case Err(e) => r == Err(e) && stored == old(stored)
    {
      var cfg := stored;
      var swap :- cfg.MarketOn(env.dex).ConvertDebtToAssetSpent(cfg.uusdFeeDebt, asset.denom);
      stored := cfg.(uusdFeeDebt := 0);
      return Ok(Bank(BankMsg.Send(cfg.feeLendRepayWallet, [swap])));
    }

    /** When the limit check fails after a repayment, storage is left with the debt cleared. */
    method CheckCoins(env: Env, spend: seq<Coin>) returns (r: Result<Option<CosmosMsg>>)
      modifies this
      ensures match Machine.CheckCoins(old(stored), env, spend)
              case Ok(Outcome(cfg, sent)) =>
                && stored == cfg
                && r.Ok?
                && sent == (if r.value.Some? then [Repayment(r.value.value)] else [])
              case Err(e) =>
                && r == Err(e)
                && stored == match SettleDebt(old(stored), env.dex, spend)
                             case Ok(settled) => settled.cfg
                             case Err(_) => old(stored)
    {
      var repay: Option<CosmosMsg> := None;
      ghost var start := stored;
      if stored.uusdFeeDebt > 0 {
        for i := 0 to |spend|
          invariant stored == start && repay == None
          invariant DebtCoin(start.MarketOn(env.dex), start.uusdFeeDebt, spend[i..])
                    == DebtCoin(start.MarketOn(env.dex), start.uusdFeeDebt, spend)
        {
          assert spend[i..][1..] == spend[i + 1..];
          var attempt := TryRepayDebt(env, spend[i]);
          if attempt.Ok? {
            repay := Some(attempt.value);
            break;
          }
        }
        if stored.uusdFeeDebt > 0 {
          return Err(UnableToRepayDebt(stored.uusdFeeDebt));
        }
      }
      var cfg := new State(stored);
      var _ :- cfg.CheckAndUpdateSpendLimits(env.dex, env.time, env.sender, spend);
      stored := cfg.Data();
      return Ok(repay);
    }

    method CheckAndSpendTotalCoins(env: Env, msg: CosmosMsg) returns (r: Result<Option<CosmosMsg>>)
      modifies this
      ensures match CheckMsg(old(stored), env, msg)
              case Ok(Outcome(cfg, sent)) =>
                && stored == cfg
                && r.Ok?
                && sent == (if r.value.Some? then [Repayment(r.value.value)] else [])
              case Err(e) => r == Err(e)
      ensures stored == StoredByCheck(old(stored), env, msg)
    {
      var processed := new PendingSubmsg(msg);
      processed.AddFunds(env.funds);
      var ty := processed.ProcessAndGetMsgType();
      if ty.Limited() {
        r := CheckCoins(env, processed.funds);
      } else if ty.ExecuteWasm? {
        if stored.admin == env.sender {
          return Ok(None);
        } else {
          return Err(OnlyTransferSendAllowed);
        }
      } else {
        return Err(BadMessageType);
      }
    }

    method ExecuteMsgs(env: Env, msgs: seq<CosmosMsg>, simulation: bool) returns (r: Result<seq<CosmosMsg>>)
      modifies this
      ensures match ExecuteExecute(old(stored), env, msgs, simulation)
              case Ok(Outcome(cfg, sent)) => stored == cfg && r == Ok(Messages(sent))
              case Err(e) => r == Err(e) && stored == StoredByBatch(old(stored), env, msgs)
    {
      if stored.uusdFeeDebt == 0 && stored.admin == env.sender {
        assert Messages(Forward(msgs)) == msgs;
        return Ok(if simulation then [] else msgs);
      }
      if |msgs| == 0 {
        return Err(Panicked);
      }
      if msgs[0].WasmExecute? && msgs[0].funds == [] && IsAuthorizedHotwalletContract(msgs[0].contractAddr)
         && stored.IsActiveHotWallet(env.sender) {
        assert Messages([Forwarded(msgs[0])]) == [msgs[0]];
        return Ok([msgs[0]]);
      }
      r := CheckEach(env, msgs, simulation);
    }

    /** The loop over a batch; `sent` is what it would send out when not simulating. */
    method CheckEach(env: Env, msgs: seq<CosmosMsg>, simulation: bool) returns (r: Result<seq<CosmosMsg>>)
      modifies this
      ensures match CheckBatch(old(stored), env, msgs)
              case Ok(Outcome(cfg, sent)) => stored == cfg && r == Ok(if simulation then [] else Messages(sent))
              case Err(e) => r == Err(e)
      ensures stored == StoredByBatch(old(stored), env, msgs)
    {
      var res: seq<CosmosMsg> := [];
      ghost var sent: seq<Outgoing> := [];
      ghost var whole, left := CheckBatch(stored, env, msgs), StoredByBatch(stored, env, msgs);
      assert msgs[0..] == msgs;
      PrecededTwice([], [], whole);
      for i := 0 to |msgs|
        invariant res == if simulation then [] else Messages(sent)
        invariant whole == Preceded(sent, CheckBatch(stored, env, msgs[i..]))
        invariant StoredByBatch(stored, env, msgs[i..]) == left
      {
        ghost var first := CheckMsg(stored, env, msgs[i]);
        assert msgs[i..][1..] == msgs[i + 1..];
        var repay :- CheckAndSpendTotalCoins(env, msgs[i]);
        ghost var more := first.value.sent + [Forwarded(msgs[i])];
        PrecededTwice(sent, more, CheckBatch(stored, env, msgs[i + 1..]));
        sent := sent + more;
        if !simulation {
          if repay.Some? {
            res := res + [repay.value];
          }
          res := res + [msgs[i]];
        }
      }
      assert sent + [] == sent;
      return Ok(res);
    }

    method AddWallet(env: Env, newHotWallet: Wallet) returns (r: Result<()>)
      modifies this
      ensures match Machine.AddWallet(old(stored), env, newHotWallet)
              case Ok(outcome) => r == Ok(()) && stored == outcome.cfg
              case Err(e) => r == Err(e) && stored == old(stored)
    {
      var cfg := new State(stored);
      if cfg.admin != env.sender {
        return Err(Unauthorized);
      } else if exists w :: w in cfg.hotWallets && w.address == newHotWallet.address {
        return Err(HotWalletExists);
      } else if !env.validAddr(newHotWallet.address) {
        return Err(InvalidAddress(newHotWallet.address));
      }
      cfg.AddHotWallet(newHotWallet);
      stored := cfg.Data();
      return Ok(());
    }

    method RmWallet(env: Env, doomed: string) returns (r: Result<()>)
      modifies this
      ensures match RemoveWallet(old(stored), env, doomed)
              case Ok(outcome) => r == Ok(()) && stored == outcome.cfg
              case Err(e) => r == Err(e) && stored == old(stored)
    {
      var cfg := new State(stored);
      if cfg.admin != env.sender {
        return Err(Unauthorized);
      } else if !exists w :: w in cfg.hotWallets && w.address == doomed {
        return Err(HotWalletDoesNotExist);
      }
      cfg.RmHotWallet(doomed);
      stored := cfg.Data();
      return Ok(());
    }

    method ProposeAdmin(env: Env, newAdmin: string) returns (r: Result<()>)
      modifies this
      ensures match Propose(old(stored), env, newAdmin)
              case Ok(outcome) => r == Ok(()) && stored == outcome.cfg
              case Err(e) => r == Err(e) && stored == old(stored)
    {
      var cfg := new State(stored);
      if cfg.admin != env.sender {
        return Err(Unauthorized);
      } else if !env.validAddr(newAdmin) {
        return Err(InvalidAddress(newAdmin));
      }
      cfg.pending := newAdmin;
      stored := cfg.Data();
      return Ok(());
    }

    method UpdateAdmin(env: Env, cancel: bool) returns (r: Result<()>)
      modifies this
      ensures match ExecuteUpdateAdmin(old(stored), env, cancel)
              case Ok(outcome) => r == Ok(()) && stored == outcome.cfg
              case Err(e) => r == Err(e) && stored == old(stored)
    {
      var cfg := new State(stored);
      if cfg.pending != env.sender {
        return Err(CallerIsNotPendingNewAdmin);
      }
      if cancel {
        cfg.pending := cfg.admin;
      } else {
        cfg.admin := cfg.pending;
      }
      stored := cfg.Data();
      return Ok(());
    }

    /** One transaction as the chain runs it: on an error the storage is put back. */
    method Transact(tx: Tx) returns (msgs: seq<CosmosMsg>)
      modifies this
      ensures Apply(old(stored), tx).cfg == stored
      ensures msgs == Messages(Apply(old(stored), tx).sent)
    {
      var before := stored;
      var r := Dispatch(tx);
      if r.Err? {
        stored := before;
        return [];
      }
      return r.value;
    }

    method Dispatch(tx: Tx) returns (r: Result<seq<CosmosMsg>>)
      modifies this
      ensures match Step(old(stored), tx)
              case Ok(Outcome(cfg, sent)) => stored == cfg && r == Ok(Messages(sent))
              case Err(e) => r == Err(e)
    {
      match tx.call {
        case Execute(msgs) =>
          r := ExecuteMsgs(tx.env, msgs, false);
          return;
        case SimExecute(msgs) =>
          r := ExecuteMsgs(tx.env, msgs, true);
          return;
        case ProposeUpdateAdmin(newAdmin) =>
          var _ :- ProposeAdmin(tx.env, newAdmin);
        case ConfirmUpdateAdmin(signers) =>
          var _ :- ValidateAll(tx.env.validAddr, signers);
          var _ :- UpdateAdmin(tx.env, false);
        case CancelUpdateAdmin =>
          var _ :- UpdateAdmin(tx.env, true);
        case AddHotWallet(w) =>
          var _ :- AddWallet(tx.env, w);
        case RmHotWallet(doomed) =>
          var _ :- RmWallet(tx.env, doomed);
      }
      return Ok([]);
    }

    method CanSpend(env: Env, sender: string, msgs: seq<CosmosMsg>) returns (r: Result<bool>)
      ensures r == QueryCanSpend(stored, env, sender, msgs)
    {
      var cfg := new State(stored);
      if cfg.admin == sender {
        return Ok(true);
      }
      if |msgs| > 1 {
        return Err(QueryNotSupported);
      }
      if |msgs| == 0 {
        return Err(Panicked);
      }
      if msgs[0].WasmExecute? {
        if !env.validAddr(sender) {
          return Err(InvalidAddress(sender));
        }
        if stored.IsActiveHotWallet(sender) && IsAuthorizedHotwalletContract(msgs[0].contractAddr)
           && msgs[0].funds == [] {
          return Ok(true);
        }
      }
      var funds :- QueriedFunds(msgs[0]);
      var res := cfg.CheckSpendLimits(env.dex, env.time, sender, funds);
      match res {
        case Ok(_) => return Ok(true);
        case Err(Panicked) => return Err(Panicked);
        case Err(_) => return Ok(false);
      }
    }
  }
}
