/**
 The contract's state. `Config` is the value kept in storage; `State` is the loaded copy
 that is changed in place before it is saved again.
 */
module States {
  import opened Prelude
  import opened Calendar
  import opened Pricing
  import opened HotWallets

  const DRINK_CONTRACT := "juno18c5uecrztn4rqakm23fskusasud7s8afujnl8yu54ule2kak5q4sdnvcz4"
  const BOTTLE_CONTRACT := "juno1x5xz6wu8qlau8znmc60tmazzj3ta98quhk7qkamul3am2x8fsaqqcwy7n9"

  predicate IsAuthorizedHotwalletContract(addr: string) {
    addr == DRINK_CONTRACT || addr == BOTTLE_CONTRACT
  }

  /** The position of the first wallet with an address, or the length when there is none. */
  function FindWallet(wallets: seq<Wallet>, addr: string): (i: nat)
    ensures i <= |wallets|
    ensures i < |wallets| ==> wallets[i].address == addr
    ensures forall j :: 0 <= j < i ==> wallets[j].address != addr
  {
    if wallets == [] || wallets[0].address == addr then 0 else 1 + FindWallet(wallets[1..], addr)
  }

  /** The first wallet with an address. */
  function Listed(wallets: seq<Wallet>, addr: string): Option<Wallet> {
    var i := FindWallet(wallets, addr);
    if i < |wallets| then Some(wallets[i]) else None
  }

  /** The wallets kept when one address is removed, in their order. */
  function Retain(wallets: seq<Wallet>, doomed: string): seq<Wallet> {
    if wallets == [] then []
    else (if wallets[0].address != doomed then [wallets[0]] else []) + Retain(wallets[1..], doomed)
  }

  datatype Config = Config(
    admin: string,
    pending: string,
    hotWallets: seq<Wallet>,
    uusdFeeDebt: U128,
    feeLendRepayWallet: string,
    homeNetwork: string,
    pairContracts: seq<PairContract>) {

    predicate IsAdmin(addr: string) {
      admin == addr
    }

    predicate IsPending(addr: string) {
      pending == addr
    }

    predicate IsActiveHotWallet(addr: string) {
      FindWallet(hotWallets, addr) < |hotWallets|
    }

    function GetWallet(addr: string): Option<Wallet> {
      Listed(hotWallets, addr)
    }

    function MarketOn(dex: Dex): Market {
      Market(pairContracts, dex)
    }

    /** The limit check of one spend: the admin is not limited, anybody else must have a wallet. */
    function CheckAndUpdate(dex: Dex, now: Timestamp, addr: string, spend: seq<Coin>): Result<Config> {
      if IsAdmin(addr) then Ok(this)
      else if !IsActiveHotWallet(addr) then Err(HotWalletDoesNotExist)
      else
        var i := FindWallet(hotWallets, addr);
        var wallet :- hotWallets[i].Access(MarketOn(dex), now, spend);
        Ok(this.(hotWallets := hotWallets[i := wallet]))
    }

    /** The read-only counterpart that the query uses. */
    function CheckSpendLimits(dex: Dex, now: Timestamp, addr: string, spend: seq<Coin>): Result<()> {
      if IsAdmin(addr) then Ok(())
      else
        match GetWallet(addr)
        case None => Err(HotWalletDoesNotExist)
        case Some(w) => w.CheckSpend(MarketOn(dex), spend, w.ShouldReset(now))
    }
  }

  lemma ShortcutTokensAreNotNamed(addr: string)
    requires IsAuthorizedHotwalletContract(addr)
    ensures !IsNamedDenom(addr)
  {
    assert |addr| == |DRINK_CONTRACT| == |BOTTLE_CONTRACT| == 63;
    assert |AXL_USDC| == 68 && |DEX_DENOM| == |MAINNET_DENOM| == 5 && |TESTNET_DENOM| == 6 && |LOCAL_DENOM| == 10;
  }

  class State {
    var admin: string
    var pending: string
    var hotWallets: seq<Wallet>
    var uusdFeeDebt: U128
    const feeLendRepayWallet: string
    const homeNetwork: string
    var pairContracts: seq<PairContract>

    constructor (cfg: Config)
      ensures Data() == cfg
    {
      admin, pending, hotWallets := cfg.admin, cfg.pending, cfg.hotWallets;
      uusdFeeDebt, feeLendRepayWallet := cfg.uusdFeeDebt, cfg.feeLendRepayWallet;
      homeNetwork, pairContracts := cfg.homeNetwork, cfg.pairContracts;
    }

    function Data(): Config
      reads this
    {
      Config(admin, pending, hotWallets, uusdFeeDebt, feeLendRepayWallet, homeNetwork, pairContracts)
    }

    method GetPairContract(denoms: (string, string)) returns (r: Result<(PairContract, bool)>)
      ensures r == FindPair(pairContracts, denoms)
    {
      for n := 0 to |pairContracts|
        invariant FindPair(pairContracts[n..], denoms) == FindPair(pairContracts, denoms)
      {
        assert pairContracts[n..][1..] == pairContracts[n + 1..];
        if pairContracts[n].denom1 == denoms.0 && pairContracts[n].denom2 == denoms.1 {
          return Ok((pairContracts[n], false));
        } else if pairContracts[n].denom2 == denoms.0 && pairContracts[n].denom1 == denoms.1 {
          return Ok((pairContracts[n], true));
        }
      }
      return Err(PairContractNotFound(denoms.0, denoms.1));
    }

    method SetPairContracts(network: string) returns (r: Result<()>)
      modifies this`pairContracts
      ensures match PairsOf(network)
              case Ok(pairs) => r == Ok(()) && pairContracts == pairs
              case Err(e) => r == Err(e) && pairContracts == old(pairContracts)
    {
      var pairs :- PairsOf(network);
      pairContracts := pairs;
      return Ok(());
    }

    method AddHotWallet(newHotWallet: Wallet)
      modifies this`hotWallets
      ensures hotWallets == old(hotWallets) + [newHotWallet]
    {
      hotWallets := hotWallets + [newHotWallet];
    }

    method RmHotWallet(doomed: string)
      modifies this`hotWallets
      ensures hotWallets == Retain(old(hotWallets), doomed)
    {
      hotWallets := Retain(hotWallets, doomed);
    }

    /** The found wallet is borrowed, changed in place and thereby changed in the list. */
    method CheckAndUpdateSpendLimits(dex: Dex, now: Timestamp, addr: string, spend: seq<Coin>) returns (r: Result<Coin>)
      modifies this`hotWallets
      ensures match old(Data()).CheckAndUpdate(dex, now, addr, spend)
              case Ok(cfg) =>
                && Data() == cfg
                && r == Ok(if admin == addr then Coin("unlimited", 0)
                           else Coin(AXL_USDC, Saturate(SumValues(Market(pairContracts, dex), spend))))
              case Err(e) => r == Err(e)
      ensures var ws, m := old(hotWallets), Market(pairContracts, dex);
              var i := FindWallet(ws, addr);
              hotWallets == if admin == addr || i == |ws| then ws else ws[i := ws[i].AfterAccess(m, now, spend)]
    {
      if admin == addr {
        return Ok(Coin("unlimited", 0));
      }
      var i := FindWallet(hotWallets, addr);
      if i == |hotWallets| {
        return Err(HotWalletDoesNotExist);
      }
      var wallet := new HotWallet(hotWallets[i]);
      var market := Market(pairContracts, dex);
      if Seconds(now) > wallet.currentPeriodReset {
        var reset := wallet.ResetPeriod(now);
        if reset.Err? {
          hotWallets := hotWallets[i := wallet.Data()];
          return Err(reset.error);
        }
      }
      r := wallet.ProcessSpendVec(market, spend);
      hotWallets := hotWallets[i := wallet.Data()];
    }

    method CheckSpendLimits(dex: Dex, now: Timestamp, addr: string, spend: seq<Coin>) returns (r: Result<Coin>)
      ensures match Data().CheckSpendLimits(dex, now, addr, spend)
              case Ok(_) => r == Ok(if admin == addr then Coin("unlimited", 0)
                                    else Coin(AXL_USDC, Saturate(SumValues(Market(pairContracts, dex), spend))))
              case Err(e) => r == Err(e)
    {
      if admin == addr {
        return Ok(Coin("unlimited", 0));
      }
      var i := FindWallet(hotWallets, addr);
      if i == |hotWallets| {
        return Err(HotWalletDoesNotExist);
      }
      var wallet := new HotWallet(hotWallets[i]);
      r := wallet.CheckSpendVec(Market(pairContracts, dex), spend, Seconds(now) > wallet.currentPeriodReset);
    }
  }
}
