/**
 Hot wallets: the limit a spend is charged to, and the period after which it refills.
 `Wallet` is the stored value; `HotWallet` is the record that is updated in place, and each
 of its methods is proved against a function on `Wallet`.
 */
module HotWallets {
  import opened Prelude
  import opened Calendar
  import opened Pricing

  datatype PeriodType = DAYS | MONTHS

  datatype CoinLimit = CoinLimit(denom: string, amount: U64, limitRemaining: U64)

  /** The month arithmetic of a reset; the working month is a u16 and its overflow panics. */
  function NextMonth(year: nat, month: nat, multiple: U16): Result<nat>
    requires 1970 <= year
  {
    var workingMonth := month + multiple;
    if workingMonth >= 0x1_0000 then Err(Panicked)
    else if 2 <= workingMonth <= 12 then FirstOfMonth(year, workingMonth)
    else if 13 <= workingMonth <= 268 then FirstOfMonth(year + workingMonth / 12, workingMonth % 12)
    else Err(MonthUpdateError)
  }

  datatype Wallet = Wallet(
    address: string,
    currentPeriodReset: U64,
    periodType: PeriodType,
    periodMultiple: U16,
    spendLimits: seq<CoinLimit>,
    usdcDenom: Option<string>,
    isDefault: Option<bool>) {

    predicate ShouldReset(now: Timestamp) {
      Seconds(now) > currentPeriodReset
    }

    /** Indexing the first limit of an empty list panics, but only once the first two tests pass. */
    function AssertIsValid(): Result<()> {
      if usdcDenom != Some("true") || |spendLimits| > 1 then Err(InvalidWallet)
      else if |spendLimits| == 0 then Err(Panicked)
      else if spendLimits[0].denom != AXL_USDC && spendLimits[0].denom != LOCAL_DENOM then Err(InvalidWallet)
      else Ok(())
    }

    function Amount(): U64 {
      if spendLimits == [] then 0 else spendLimits[0].amount
    }

    function Remaining(): U64 {
      if spendLimits == [] then 0 else spendLimits[0].limitRemaining
    }

    /** The wallet with what is left of its limit replaced, and nothing else changed. */
    function WithRemaining(left: U64): Wallet {
      if spendLimits == [] then this
      else this.(spendLimits := spendLimits[0 := spendLimits[0].(limitRemaining := left)])
    }

    /** One coin: what would be left of the limit (or of the full amount), and the USDC value. */
    function SimulateReduceLimit(m: Market, spend: Coin, reset: bool): Result<(U64, Coin)> {
      var usdc :- m.GetConvertedToUsdc(spend, false);
      if spendLimits == [] then Err(Panicked)
      else
        var limit := if reset then spendLimits[0].amount else spendLimits[0].limitRemaining;
        var charge := AsU64(usdc.amount);
        if limit < charge then Err(CannotSpendMoreThanLimit(usdc.amount, usdc.denom))
        else Ok((limit - charge, usdc))
    }

    /** Coins charged one after another; the first one that fails stops the spend. */
    function Spend(m: Market, coins: seq<Coin>): Result<Wallet>
      decreases |coins|
    {
      if coins == [] then Ok(this)
      else
        var reduced :- SimulateReduceLimit(m, coins[0], false);
        WithRemaining(reduced.0).Spend(m, coins[1..])
    }

    /** The query's test: every coin on its own against the same limit. */
    function CheckSpend(m: Market, coins: seq<Coin>, reset: bool): Result<()>
      decreases |coins|
    {
      if coins == [] then Ok(())
      else
        var _ :- SimulateReduceLimit(m, coins[0], reset);
        CheckSpend(m, coins[1..], reset)
    }

    /** The next reset time, in seconds. */
    function NextReset(now: Timestamp): Result<nat> {
      var s := Seconds(now);
      match periodType
      case DAYS =>
        (match CheckedAddDays(s, periodMultiple)
         case Some(next) => Ok(next)
         case None => Err(DayUpdateError))
      case MONTHS =>
        NextMonth(Year(s), Month(s), periodMultiple)
    }

    /** A refill: the whole amount is available again and the reset time moves on. */
    function ResetPeriod(now: Timestamp): Result<Wallet> {
      var next := NextReset(now);
      if next.Err? && !next.error.MonthUpdateError? then Err(next.error)
      else if spendLimits == [] then Err(Panicked)
      else if next.Err? then Err(DayUpdateError)
      else Ok(WithRemaining(spendLimits[0].amount).(currentPeriodReset := AsU64(next.value)))
    }

    /** One limit check: refill first when the period has passed, then charge. */
    function Access(m: Market, now: Timestamp, coins: seq<Coin>): Result<Wallet> {
      if ShouldReset(now) then
        var refilled :- ResetPeriod(now);
        refilled.Spend(m, coins)
      else
        Spend(m, coins)
    }

    // What is left of the wallet in memory when a step is over, also when it stopped at an error.

    function AfterSpend(m: Market, coins: seq<Coin>): Wallet
      decreases |coins|
    {
      if coins == [] then this
      else
        match SimulateReduceLimit(m, coins[0], false)
        case Ok((left, _)) => WithRemaining(left).AfterSpend(m, coins[1..])
        case Err(_) => this
    }

    function AfterReset(now: Timestamp): Wallet {
      match ResetPeriod(now)
      case Ok(refilled) => refilled
      case Err(_) => if NextReset(now) == Err(MonthUpdateError) then WithRemaining(Amount()) else this
    }

    function AfterAccess(m: Market, now: Timestamp, coins: seq<Coin>): Wallet {
      if !ShouldReset(now) then AfterSpend(m, coins)
      else if ResetPeriod(now).Ok? then AfterReset(now).AfterSpend(m, coins)
      else AfterReset(now)
    }
  }

  // ----- what a list of coins costs

  /** The charge for one coin: its USDC value cast to u64. */
  function Charge(m: Market, coin: Coin): U64 {
    match m.GetConvertedToUsdc(coin, false)
    case Ok(usdc) => AsU64(usdc.amount)
    case Err(_) => 0
  }

  function SumCharges(m: Market, coins: seq<Coin>): nat {
    if coins == [] then 0 else Charge(m, coins[0]) + SumCharges(m, coins[1..])
  }

  /** The USDC value of one coin, before the cast. */
  function UsdcValue(m: Market, coin: Coin): U128 {
    match m.GetConvertedToUsdc(coin, false)
    case Ok(usdc) => usdc.amount
    case Err(_) => 0
  }

  function SumValues(m: Market, coins: seq<Coin>): nat {
    if coins == [] then 0 else UsdcValue(m, coins[0]) + SumValues(m, coins[1..])
  }

  predicate AllConvert(m: Market, coins: seq<Coin>) {
    forall coin :: coin in coins ==> m.GetConvertedToUsdc(coin, false).Ok?
  }

  lemma {:induction false} SumValuesAppend(m: Market, x: seq<Coin>, y: seq<Coin>)
    ensures SumValues(m, x + y) == SumValues(m, x) + SumValues(m, y)
    ensures SumCharges(m, x + y) == SumCharges(m, x) + SumCharges(m, y)
  {
    if x == [] {
      assert x + y == y;
    } else {
      assert (x + y)[1..] == x[1..] + y;
      SumValuesAppend(m, x[1..], y);
    }
  }

  // ----- spending in parts

  /** Spending `x` and then `y` is spending `x + y`. */
  lemma {:induction false} SpendInParts(w: Wallet, m: Market, x: seq<Coin>, y: seq<Coin>)
    ensures w.Spend(m, x + y) == match w.Spend(m, x) case Ok(mid) => mid.Spend(m, y) case Err(e) => Err(e)
    decreases |x|
  {
    if x == [] {
      assert x + y == y;
    } else {
      assert (x + y)[1..] == x[1..] + y;
      var reduced := w.SimulateReduceLimit(m, x[0], false);
      if reduced.Ok? {
        SpendInParts(w.WithRemaining(reduced.value.0), m, x[1..], y);
      }
    }
  }

  // ----- the record updated in place

  class HotWallet {
    const address: string
    var currentPeriodReset: U64
    const periodType: PeriodType
    const periodMultiple: U16
    var spendLimits: seq<CoinLimit>
    const usdcDenom: Option<string>
    const isDefault: Option<bool>

    constructor (w: Wallet)
      ensures Data() == w
    {
      address, periodType, periodMultiple := w.address, w.periodType, w.periodMultiple;
      currentPeriodReset, spendLimits := w.currentPeriodReset, w.spendLimits;
      usdcDenom, isDefault := w.usdcDenom, w.isDefault;
    }

    function Data(): Wallet
      reads this
    {
      Wallet(address, currentPeriodReset, periodType, periodMultiple, spendLimits, usdcDenom, isDefault)
    }

    /** No entry point calls it; a wallet's limit is changed by removing and adding the wallet. */
    method UpdateSpendLimit(newLimit: CoinLimit)
      modifies this`spendLimits
      ensures Data() == old(Data()).(spendLimits := [newLimit])
    {
      spendLimits := [newLimit];
    }

    method ResetLimits() returns (r: Result<()>)
      modifies this`spendLimits
      ensures r == if old(spendLimits) == [] then Err(Panicked) else Ok(())
      ensures Data() == old(Data()).WithRemaining(old(Data()).Amount())
    {
      if |spendLimits| == 0 {
        return Err(Panicked);
      }
      spendLimits := spendLimits[0 := spendLimits[0].(limitRemaining := spendLimits[0].amount)];
      return Ok(());
    }

    method ReduceLimit(m: Market, spend: Coin) returns (r: Result<Coin>)
      modifies this`spendLimits
      ensures match old(Data()).SimulateReduceLimit(m, spend, false)
              case Ok((left, usdc)) => r == Ok(usdc) && Data() == old(Data()).WithRemaining(left)
              case Err(e) => r == Err(e) && Data() == old(Data())
    {
      var reduction :- Data().SimulateReduceLimit(m, spend, false);
      spendLimits := spendLimits[0 := spendLimits[0].(limitRemaining := reduction.0)];
      return Ok(reduction.1);
    }

    /** When a coin fails, the coins before it stay charged. */
    method ProcessSpendVec(m: Market, spendVec: seq<Coin>) returns (r: Result<Coin>)
      modifies this`spendLimits
      ensures match old(Data()).Spend(m, spendVec)
              case Ok(w) => r == Ok(Coin(AXL_USDC, Saturate(SumValues(m, spendVec)))) && Data() == w
              case Err(e) =>
                && r == Err(e)
                && exists i :: 0 <= i < |spendVec| && old(Data()).Spend(m, spendVec[..i]) == Ok(Data())
                               && Data().SimulateReduceLimit(m, spendVec[i], false) == Err(e)
      ensures Data() == old(Data()).AfterSpend(m, spendVec)
    {
      var spendTally: U128 := 0;
      for i := 0 to |spendVec|
        invariant Data().Spend(m, spendVec[i..]) == old(Data()).Spend(m, spendVec)
        invariant old(Data()).Spend(m, spendVec[..i]) == Ok(Data())
        invariant Data().AfterSpend(m, spendVec[i..]) == old(Data()).AfterSpend(m, spendVec)
        invariant spendTally == Saturate(SumValues(m, spendVec[..i]))
      {
        assert spendVec[i..][1..] == spendVec[i + 1..];
        SpendInParts(old(Data()), m, spendVec[..i], [spendVec[i]]);
        var usdc :- ReduceLimit(m, spendVec[i]);
        assert spendVec[..i + 1] == spendVec[..i] + [spendVec[i]];
        SumValuesAppend(m, spendVec[..i], [spendVec[i]]);
        spendTally := Saturate(spendTally + usdc.amount);
      }
      assert spendVec[..|spendVec|] == spendVec;
      return Ok(Coin(AXL_USDC, spendTally));
    }

    method CheckSpendVec(m: Market, spendVec: seq<Coin>, shouldReset: bool) returns (r: Result<Coin>)
      ensures match Data().CheckSpend(m, spendVec, shouldReset)
              case Ok(_) => r == Ok(Coin(AXL_USDC, Saturate(SumValues(m, spendVec))))
              case Err(e) => r == Err(e)
    {
      var spendTally: U128 := 0;
      for i := 0 to |spendVec|
        invariant Data().CheckSpend(m, spendVec[i..], shouldReset) == Data().CheckSpend(m, spendVec, shouldReset)
        invariant spendTally == Saturate(SumValues(m, spendVec[..i]))
      {
        assert spendVec[i..][1..] == spendVec[i + 1..];
        var reduction :- Data().SimulateReduceLimit(m, spendVec[i], shouldReset);
        assert spendVec[..i + 1] == spendVec[..i] + [spendVec[i]];
        SumValuesAppend(m, spendVec[..i], [spendVec[i]]);
        spendTally := Saturate(spendTally + reduction.1.amount);
      }
      assert spendVec[..|spendVec|] == spendVec;
      return Ok(Coin(AXL_USDC, spendTally));
    }

    /** The limit is refilled even when the month computation fails with an error. */
    method ResetPeriod(now: Timestamp) returns (r: Result<()>)
      modifies this`spendLimits, this`currentPeriodReset
      ensures match old(Data()).ResetPeriod(now)
              case Ok(w) => r == Ok(()) && Data() == w
              case Err(e) =>
                && r == Err(e)
                && Data() == if old(Data()).NextReset(now) == Err(MonthUpdateError)
                             then old(Data()).WithRemaining(old(Data()).Amount()) else old(Data())
      ensures Data() == old(Data()).AfterReset(now)
    {
      var next := Data().NextReset(now);
      if next.Err? && !next.error.MonthUpdateError? {
        return Err(next.error);
      }
      var _ :- ResetLimits();
      if next.Err? {
        return Err(DayUpdateError);
      }
      currentPeriodReset := AsU64(next.value);
      return Ok(());
    }
  }

  // ----- the spend loop is exact

  /**
   A spend succeeds exactly when every coin converts and the charges together fit in what
   is left; then the limit drops by exactly their sum and nothing else changes.
   */
  lemma {:induction false} SpendIsExact(w: Wallet, m: Market, coins: seq<Coin>)
    ensures w.Spend(m, coins).Ok?
            <==> AllConvert(m, coins) && (coins == [] || w.spendLimits != []) && SumCharges(m, coins) <= w.Remaining()
    ensures w.Spend(m, coins).Ok? ==> w.Spend(m, coins).value == w.WithRemaining(w.Remaining() - SumCharges(m, coins))
    decreases |coins|
  {
    if coins != [] {
      assert forall coin :: coin in coins <==> coin == coins[0] || coin in coins[1..];
      var reduced := w.SimulateReduceLimit(m, coins[0], false);
      if reduced.Ok? {
        SpendIsExact(w.WithRemaining(reduced.value.0), m, coins[1..]);
      }
    }
  }
}
