/**
 The contract as a state machine: what each entry point does to the stored configuration
 and which messages it sends out. The messages it inserts itself are told apart from the
 ones it forwards; `Messages` forgets the difference, as the chain does.
 */
module Machine {
  import opened Prelude
  import opened Calendar
  import opened Pricing
  import opened HotWallets
  import opened Submsgs
  import opened States

  /** The surroundings of one call: who sends it, when, and what the chain answers. */
  datatype Env = Env(sender: string, funds: seq<Coin>, time: Timestamp, dex: Dex, validAddr: string -> bool)

  datatype Call =
    | Execute(msgs: seq<CosmosMsg>)
    | SimExecute(msgs: seq<CosmosMsg>)
    | ProposeUpdateAdmin(newAdmin: string)
    | ConfirmUpdateAdmin(signers: seq<string>)
    | CancelUpdateAdmin
    | AddHotWallet(newHotWallet: Wallet)
    | RmHotWallet(doomedHotWallet: string)

  datatype Tx = Tx(env: Env, call: Call)

  datatype Outgoing = Repayment(msg: CosmosMsg) | Forwarded(msg: CosmosMsg)

  datatype Outcome = Outcome(cfg: Config, sent: seq<Outgoing>)

  function Forward(msgs: seq<CosmosMsg>): (sent: seq<Outgoing>)
    ensures |sent| == |msgs| && forall i :: 0 <= i < |msgs| ==> sent[i] == Forwarded(msgs[i])
  {
    seq(|msgs|, i requires 0 <= i < |msgs| => Forwarded(msgs[i]))
  }

  function Messages(sent: seq<Outgoing>): (msgs: seq<CosmosMsg>)
    ensures |sent| == |msgs| && forall i :: 0 <= i < |sent| ==> msgs[i] == sent[i].msg
  {
    seq(|sent|, i requires 0 <= i < |sent| => sent[i].msg)
  }

  // ----- debt

  /** The debt converted into the first of the coins for which that works. */
  function DebtCoin(m: Market, debt: U128, coins: seq<Coin>): Option<Coin> {
    if coins == [] then None
    else
      match m.ConvertDebtToAssetSpent(debt, coins[0].denom)
      case Ok(coin) => Some(coin)
      case Err(_) => DebtCoin(m, debt, coins[1..])
  }

  function RepayMsg(cfg: Config, coin: Coin): CosmosMsg {
    Bank(BankMsg.Send(cfg.feeLendRepayWallet, [coin]))
  }

  /** A positive debt is repaid before the limit is charged; if no coin can pay, nothing happens. */
  function SettleDebt(cfg: Config, dex: Dex, spend: seq<Coin>): Result<Outcome> {
    if cfg.uusdFeeDebt == 0 then Ok(Outcome(cfg, []))
    else
      match DebtCoin(cfg.MarketOn(dex), cfg.uusdFeeDebt, spend)
      case None => Err(UnableToRepayDebt(cfg.uusdFeeDebt))
      case Some(coin) => Ok(Outcome(cfg.(uusdFeeDebt := 0), [Repayment(RepayMsg(cfg, coin))]))
  }

  function CheckCoins(cfg: Config, env: Env, spend: seq<Coin>): Result<Outcome> {
    var settled :- SettleDebt(cfg, env.dex, spend);
    var charged :- settled.cfg.CheckAndUpdate(env.dex, env.time, env.sender, spend);
    Ok(Outcome(charged, settled.sent))
  }

  // ----- executing a batch

  /** Checks one message; what it sends out is the inserted repayment, if any. */
  function CheckMsg(cfg: Config, env: Env, msg: CosmosMsg): Result<Outcome> {
    match TypeOf(msg)
    case Unknown => Err(BadMessageType)
    case ty =>
      if ty.Limited() then CheckCoins(cfg, env, SpentFunds(msg))
      else if cfg.IsAdmin(env.sender) then Ok(Outcome(cfg, []))
      else Err(OnlyTransferSendAllowed)
  }

  /** An outcome with more messages sent before it. */
  function Preceded(sent: seq<Outgoing>, later: Result<Outcome>): Result<Outcome> {
    match later
    case Ok(outcome) => Ok(outcome.(sent := sent + outcome.sent))
    case Err(e) => Err(e)
  }

  lemma PrecededTwice(a: seq<Outgoing>, b: seq<Outgoing>, later: Result<Outcome>)
    ensures Preceded(a, Preceded(b, later)) == Preceded(a + b, later)
    ensures Preceded([], later) == later
  {
    if later.Ok? {
      assert a + (b + later.value.sent) == a + b + later.value.sent;
      assert [] + later.value.sent == later.value.sent;
    }
  }

  /** Checks a batch one message after another, each with the state the previous one left. */
  function CheckBatch(cfg: Config, env: Env, msgs: seq<CosmosMsg>): Result<Outcome>
    decreases |msgs|
  {
    if msgs == [] then Ok(Outcome(cfg, []))
    else
      var first :- CheckMsg(cfg, env, msgs[0]);
      Preceded(first.sent + [Forwarded(msgs[0])], CheckBatch(first.cfg, env, msgs[1..]))
  }

  /** The two token contracts a listed hot wallet may call without any check. */
  predicate Shortcut(cfg: Config, sender: string, msg: CosmosMsg) {
    && msg.WasmExecute?
    && msg.funds == []
    && IsAuthorizedHotwalletContract(msg.contractAddr)
    && cfg.IsActiveHotWallet(sender)
  }

  predicate Unchecked(cfg: Config, env: Env) {
    cfg.uusdFeeDebt == 0 && cfg.IsAdmin(env.sender)
  }

  function ExecuteExecute(cfg: Config, env: Env, msgs: seq<CosmosMsg>, simulation: bool): Result<Outcome> {
    if Unchecked(cfg, env) then Ok(Outcome(cfg, if simulation then [] else Forward(msgs)))
    else if msgs == [] then Err(Panicked)
    else if Shortcut(cfg, env.sender, msgs[0]) then Ok(Outcome(cfg, [Forwarded(msgs[0])]))
    else
      var checked :- CheckBatch(cfg, env, msgs);
      Ok(if simulation then checked.(sent := []) else checked)
  }

  // What a failed check leaves in storage, before the chain rolls it back.

  function StoredByCheck(cfg: Config, env: Env, msg: CosmosMsg): Config {
    match CheckMsg(cfg, env, msg)
    case Ok(outcome) => outcome.cfg
    case Err(_) =>
      if !TypeOf(msg).Limited() then cfg
      else
        match SettleDebt(cfg, env.dex, SpentFunds(msg))
        case Ok(settled) => settled.cfg
        case Err(_) => cfg
  }

  function StoredByBatch(cfg: Config, env: Env, msgs: seq<CosmosMsg>): Config
    decreases |msgs|
  {
    if msgs == [] then cfg
    else
      var next := StoredByCheck(cfg, env, msgs[0]);
      if CheckMsg(cfg, env, msgs[0]).Ok? then StoredByBatch(next, env, msgs[1..]) else next
  }

  // ----- the other entry points

  function AddWallet(cfg: Config, env: Env, w: Wallet): Result<Outcome> {
    if !cfg.IsAdmin(env.sender) then Err(Unauthorized)
    else if cfg.IsActiveHotWallet(w.address) then Err(HotWalletExists)
    else if !env.validAddr(w.address) then Err(InvalidAddress(w.address))
    else Ok(Outcome(cfg.(hotWallets := cfg.hotWallets + [w]), []))
  }

  function RemoveWallet(cfg: Config, env: Env, doomed: string): Result<Outcome> {
    if !cfg.IsAdmin(env.sender) then Err(Unauthorized)
    else if !cfg.IsActiveHotWallet(doomed) then Err(HotWalletDoesNotExist)
    else Ok(Outcome(cfg.(hotWallets := Retain(cfg.hotWallets, doomed)), []))
  }

  function Propose(cfg: Config, env: Env, newAdmin: string): Result<Outcome> {
    if !cfg.IsAdmin(env.sender) then Err(Unauthorized)
    else if !env.validAddr(newAdmin) then Err(InvalidAddress(newAdmin))
    else Ok(Outcome(cfg.(pending := newAdmin), []))
  }

  function ExecuteUpdateAdmin(cfg: Config, env: Env, cancel: bool): Result<Outcome> {
    if !cfg.IsPending(env.sender) then Err(CallerIsNotPendingNewAdmin)
    else Ok(Outcome(if cancel then cfg.(pending := cfg.admin) else cfg.(admin := cfg.pending), []))
  }

  function ValidateAll(validAddr: string -> bool, addrs: seq<string>): Result<()> {
    if addrs == [] then Ok(())
    else if !validAddr(addrs[0]) then Err(InvalidAddress(addrs[0]))
    else ValidateAll(validAddr, addrs[1..])
  }

  function Confirm(cfg: Config, env: Env, signers: seq<string>): Result<Outcome> {
    var _ :- ValidateAll(env.validAddr, signers);
    ExecuteUpdateAdmin(cfg, env, false)
  }

  /** One transaction: the new configuration and the messages sent, or an error. */
  function Step(cfg: Config, tx: Tx): Result<Outcome> {
    match tx.call
    case Execute(msgs) => ExecuteExecute(cfg, tx.env, msgs, false)
    case SimExecute(msgs) => ExecuteExecute(cfg, tx.env, msgs, true)
    case ProposeUpdateAdmin(newAdmin) => Propose(cfg, tx.env, newAdmin)
    case ConfirmUpdateAdmin(signers) => Confirm(cfg, tx.env, signers)
    case CancelUpdateAdmin => ExecuteUpdateAdmin(cfg, tx.env, true)
    case AddHotWallet(w) => AddWallet(cfg, tx.env, w)
    case RmHotWallet(doomed) => RemoveWallet(cfg, tx.env, doomed)
  }

  /** The chain rolls a failed transaction back. */
  function Apply(cfg: Config, tx: Tx): Outcome {
    match Step(cfg, tx)
    case Ok(outcome) => outcome
    case Err(_) => Outcome(cfg, [])
  }

  // ----- instantiation and the spend query

  datatype InstantiateMsg = InstantiateMsg(
    admin: string,
    hotWallets: seq<Wallet>,
    uusdFeeDebt: U128,
    feeLendRepayWallet: string,
    homeNetwork: string,
    signers: seq<string>)

  function AllValid(wallets: seq<Wallet>): Result<()> {
    if wallets == [] then Ok(())
    else
      var _ :- wallets[0].AssertIsValid();
      AllValid(wallets[1..])
  }

  function Instantiate(validAddr: string -> bool, msg: InstantiateMsg): Result<Config> {
    var _ :- ValidateAll(validAddr, [msg.admin, msg.feeLendRepayWallet]);
    var _ :- AllValid(msg.hotWallets);
    var pairs :- PairsOf(msg.homeNetwork);
    var _ :- ValidateAll(validAddr, msg.signers);
    Ok(Config(msg.admin, msg.admin, msg.hotWallets, msg.uusdFeeDebt, msg.feeLendRepayWallet, msg.homeNetwork, pairs))
  }

  /** The funds the query tests; a message kind it does not support is an error. */
  function QueriedFunds(msg: CosmosMsg): Result<seq<Coin>> {
    match msg
    case Bank(Send(_, amount)) => Ok(amount)
    case Delegate(_, amount) => Ok([amount])
    case _ => Err(QueryNotSupported)
  }

  function QueryCanSpend(cfg: Config, env: Env, sender: string, msgs: seq<CosmosMsg>): Result<bool> {
    if cfg.IsAdmin(sender) then Ok(true)
    else if |msgs| > 1 then Err(QueryNotSupported)
    else if msgs == [] then Err(Panicked)
    else if msgs[0].WasmExecute? && !env.validAddr(sender) then Err(InvalidAddress(sender))
    else if Shortcut(cfg, sender, msgs[0]) then Ok(true)
    else
      var funds :- QueriedFunds(msgs[0]);
      match cfg.CheckSpendLimits(env.dex, env.time, sender, funds)
      case Ok(_) => Ok(true)
      case Err(Panicked) => Err(Panicked)
      case Err(_) => Ok(false)
  }
}
