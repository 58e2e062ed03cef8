/** A batch and the same messages sent in two parts, one after the other. */
module Sequences {
  import opened Prelude
  import opened Pricing
  import opened SpendProperties
  import opened Submsgs
  import opened States
  import opened Machine
  import opened Frames
  import opened ExecuteProperties
  import opened Acceptance

  /** Sending `msgs` frees an admin of a debt, as can be seen before it is sent. */
  predicate Frees(cfg: Config, env: Env, msgs: seq<CosmosMsg>) {
    && cfg.IsAdmin(env.sender) && cfg.uusdFeeDebt > 0
    && AllKnown(msgs) && FirstLimited(msgs) < |msgs| && DebtIsPayable(cfg, env, msgs)
  }

  lemma FreesIsUnchecked(cfg: Config, env: Env, msgs: seq<CosmosMsg>)
    requires !Unchecked(cfg, env)
    ensures Frees(cfg, env, msgs)
            <==> CheckBatch(cfg, env, msgs).Ok? && Unchecked(CheckBatch(cfg, env, msgs).value.cfg, env)
  {
    if CheckBatch(cfg, env, msgs).Ok? {
      CheckBatchOnlySpends(cfg, env, msgs);
      CheckBatchOutput(cfg, env, msgs);
    }
    if cfg.IsAdmin(env.sender) {
      AdminWithDebt(cfg, env, msgs);
    }
  }

  /** Two executes in a row, in the same block. */
  function ExecuteTwice(cfg: Config, env: Env, a: seq<CosmosMsg>, b: seq<CosmosMsg>): Result<Outcome> {
    var first :- ExecuteExecute(cfg, env, a, false);
    Preceded(first.sent, ExecuteExecute(first.cfg, env, b, false))
  }

  lemma PrecededIsInjective(sent: seq<Outgoing>, x: Result<Outcome>, y: Result<Outcome>)
    ensures Preceded(sent, x) == Preceded(sent, y) <==> x == y
  {
    if x.Ok? && y.Ok? && Preceded(sent, x) == Preceded(sent, y) {
      assert x.value.sent == (sent + x.value.sent)[|sent|..];
      assert y.value.sent == (sent + y.value.sent)[|sent|..];
    }
  }

  /** After a first part that is checked, batch and sequence differ as their second parts do. */
  lemma SecondParts(cfg: Config, env: Env, a: seq<CosmosMsg>, b: seq<CosmosMsg>)
    requires a != [] && !Unchecked(cfg, env) && !Shortcut(cfg, env.sender, a[0])
    ensures var first := CheckBatch(cfg, env, a);
            && ExecuteExecute(cfg, env, a, false) == first
            && (first.Err? ==> ExecuteExecute(cfg, env, a + b, false) == ExecuteTwice(cfg, env, a, b))
            && (first.Ok? ==>
                  (ExecuteExecute(cfg, env, a + b, false) == ExecuteTwice(cfg, env, a, b)
                   <==> CheckBatch(first.value.cfg, env, b) == ExecuteExecute(first.value.cfg, env, b, false)))
  {
    var first := CheckBatch(cfg, env, a);
    CheckBatchInParts(cfg, env, a, b);
    assert (a + b)[0] == a[0];
    if first.Ok? {
      PrecededIsInjective(first.value.sent, CheckBatch(first.value.cfg, env, b),
                          ExecuteExecute(first.value.cfg, env, b, false));
    }
  }

  /**
   When no shortcut is involved, one batch does what its two parts do, with the same final
   state, output and error, unless the first part frees an admin of the debt and the second
   part holds a message of unknown type: sent alone it would pass unchecked.
   */
  lemma BatchIsSequence(cfg: Config, env: Env, a: seq<CosmosMsg>, b: seq<CosmosMsg>)
    requires a != [] && b != []
    requires Unchecked(cfg, env) || (!Shortcut(cfg, env.sender, a[0]) && !Shortcut(cfg, env.sender, b[0]))
    ensures ExecuteExecute(cfg, env, a + b, false) == ExecuteTwice(cfg, env, a, b)
            <==> !Frees(cfg, env, a) || AllKnown(b)
  {
    if Unchecked(cfg, env) {
      ForwardAppend(a, b);
    } else {
      var first := CheckBatch(cfg, env, a);
      SecondParts(cfg, env, a, b);
      FreesIsUnchecked(cfg, env, a);
      if first.Ok? {
        CheckBatchOnlySpends(cfg, env, a);
        OnlySpentKeepsAddresses(cfg, first.value.cfg, env.sender, env.sender);
        if Unchecked(first.value.cfg, env) {
          AdminIsForwarded(first.value.cfg, env, b);
        }
      }
    }
  }

  /** When the first part starts with a shortcut call, a batch never does what its parts do. */
  lemma ShortcutFirstNeverAgrees(cfg: Config, env: Env, a: seq<CosmosMsg>, b: seq<CosmosMsg>)
    requires a != [] && b != []
    requires !Unchecked(cfg, env) && Shortcut(cfg, env.sender, a[0])
    ensures ExecuteExecute(cfg, env, a + b, false) == Ok(Outcome(cfg, [Forwarded(a[0])]))
    ensures ExecuteExecute(cfg, env, a + b, false) != ExecuteTwice(cfg, env, a, b)
  {
    assert (a + b)[0] == a[0];
    if ExecuteExecute(cfg, env, b, false).Ok? && !Shortcut(cfg, env.sender, b[0]) {
      CheckBatchOutput(cfg, env, b);
    }
  }

  /**
   A shortcut call that goes through the check instead, on a built-in pair table: it passes
   alone exactly when the sender is admin and the call is decoded and spends no tokens.
   */
  lemma ShortcutCallChecked(cfg: Config, env: Env, msgs: seq<CosmosMsg>)
    requires msgs != [] && !Unchecked(cfg, env) && Shortcut(cfg, env.sender, msgs[0])
    requires PairsOf(cfg.homeNetwork) == Ok(cfg.pairContracts)
    ensures CheckBatch(cfg, env, msgs) == Ok(Outcome(cfg, [Forwarded(msgs[0])]))
            <==> |msgs| == 1 && cfg.IsAdmin(env.sender)
                 && !TypeOf(msgs[0]).Unknown? && !TypeOf(msgs[0]).Limited()
  {
    if TypeOf(msgs[0]).Limited() {
      TokenSpendsFail(cfg, env, msgs[0]);
    } else if |msgs| == 1 {
      OneUnlimitedMessage(cfg, env, msgs);
    } else if CheckBatch(cfg, env, msgs).Ok? {
      CheckBatchOutput(cfg, env, msgs);
    }
  }

  lemma OneUnlimitedMessage(cfg: Config, env: Env, msgs: seq<CosmosMsg>)
    requires |msgs| == 1 && !TypeOf(msgs[0]).Limited()
    ensures CheckBatch(cfg, env, msgs).Ok? <==> cfg.IsAdmin(env.sender) && !TypeOf(msgs[0]).Unknown?
    ensures CheckBatch(cfg, env, msgs).Ok? ==> CheckBatch(cfg, env, msgs) == Ok(Outcome(cfg, [Forwarded(msgs[0])]))
  {
    assert msgs[1..] == [] && [] + [Forwarded(msgs[0])] + [] == [Forwarded(msgs[0])];
  }

  lemma TokenSpendsFail(cfg: Config, env: Env, msg: CosmosMsg)
    requires !Unchecked(cfg, env) && Shortcut(cfg, env.sender, msg) && TypeOf(msg).Limited()
    requires PairsOf(cfg.homeNetwork) == Ok(cfg.pairContracts)
    ensures CheckMsg(cfg, env, msg).Err?
  {
    var coins := SpentFunds(msg);
    var amount := TokensSpent(msg.payload.call).value;
    var m := cfg.MarketOn(env.dex);
    assert coins == [Coin(msg.contractAddr, amount)] && coins[1..] == [];
    ShortcutTokensAreNotNamed(msg.contractAddr);
    TokensHaveNoPrice(cfg.homeNetwork, env.dex, msg.contractAddr, amount, cfg.uusdFeeDebt);
    if cfg.uusdFeeDebt == 0 {
      AccessIsExact(cfg.GetWallet(env.sender).value, m, env.time, coins);
      assert coins[0] in coins;
    } else {
      assert DebtCoin(m, cfg.uusdFeeDebt, coins) == DebtCoin(m, cfg.uusdFeeDebt, coins[1..]) == None;
    }
  }

  /**
   When only the second part starts with a shortcut call, on a built-in pair table, batch
   and sequence agree exactly when the first part does not pass the check, or frees an admin
   of the debt and the second part is known, or the second part is a single call the check
   lets an admin make.
   */
  lemma ShortcutSecondAgrees(cfg: Config, env: Env, a: seq<CosmosMsg>, b: seq<CosmosMsg>)
    requires a != [] && b != []
    requires !Unchecked(cfg, env) && !Shortcut(cfg, env.sender, a[0]) && Shortcut(cfg, env.sender, b[0])
    requires PairsOf(cfg.homeNetwork) == Ok(cfg.pairContracts)
    ensures ExecuteExecute(cfg, env, a + b, false) == ExecuteTwice(cfg, env, a, b)
            <==> || !Passes(cfg, env, a)
                 || (if Frees(cfg, env, a) then AllKnown(b)
                     else |b| == 1 && cfg.IsAdmin(env.sender)
                          && !TypeOf(b[0]).Unknown? && !TypeOf(b[0]).Limited())
  {
    var first := CheckBatch(cfg, env, a);
    SecondParts(cfg, env, a, b);
    FreesIsUnchecked(cfg, env, a);
    BatchPasses(cfg, env, a);
    if first.Ok? {
      CheckBatchOnlySpends(cfg, env, a);
      OnlySpentKeepsAddresses(cfg, first.value.cfg, env.sender, env.sender);
      if Unchecked(first.value.cfg, env) {
        AdminIsForwarded(first.value.cfg, env, b);
      } else {
        ShortcutCallChecked(first.value.cfg, env, b);
      }
    }
  }

  /**
   Of the senders that are checked, exactly the listed hot wallets have a call of the two
   token contracts without funds sent on alone, whatever follows it. The admin as such has
   not: only a single decoded call that spends no tokens passes the check for an admin.
   */
  lemma ShortcutIsForListedWallets(cfg: Config, env: Env, msg: CosmosMsg, rest: seq<CosmosMsg>, simulation: bool)
    requires !Unchecked(cfg, env)
    requires msg.WasmExecute? && msg.funds == [] && IsAuthorizedHotwalletContract(msg.contractAddr)
    ensures ExecuteExecute(cfg, env, [msg] + rest, simulation) == Ok(Outcome(cfg, [Forwarded(msg)]))
            <==> || cfg.IsActiveHotWallet(env.sender)
                 || (&& rest == [] && !simulation && cfg.IsAdmin(env.sender)
                     && !TypeOf(msg).Unknown? && !TypeOf(msg).Limited())
  {
    var msgs := [msg] + rest;
    assert msgs[0] == msg;
    if !cfg.IsActiveHotWallet(env.sender) {
      if rest == [] && !TypeOf(msg).Limited() {
        OneUnlimitedMessage(cfg, env, msgs);
      } else if CheckBatch(cfg, env, msgs).Ok? {
        CheckBatchOutput(cfg, env, msgs);
      }
    }
  }

  /** Lists of bank messages may always be split or joined. */
  lemma BankBatchIsSequence(cfg: Config, env: Env, a: seq<CosmosMsg>, b: seq<CosmosMsg>)
    requires a != [] && b != []
    requires forall msg :: msg in a + b ==> msg.Bank?
    ensures ExecuteExecute(cfg, env, a + b, false) == ExecuteTwice(cfg, env, a, b)
  {
    assert a[0] in a + b;
    assert forall i :: 0 <= i < |b| ==> b[i] in a + b;
    BatchIsSequence(cfg, env, a, b);
  }
}
