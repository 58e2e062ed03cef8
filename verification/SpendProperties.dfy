/** What a spend and a refill mean for a single wallet, for any prices. */
module SpendProperties {
  import opened Prelude
  import opened Calendar
  import opened Pricing
  import opened HotWallets

  // ----- spending

  function Without(coins: seq<Coin>, i: nat): seq<Coin>
    requires i < |coins|
  {
    coins[..i] + coins[i + 1..]
  }

  lemma SumChargesWithout(m: Market, coins: seq<Coin>, i: nat)
    requires i < |coins|
    ensures SumCharges(m, coins) == Charge(m, coins[i]) + SumCharges(m, Without(coins, i))
  {
    assert coins == coins[..i] + coins[i..];
    assert coins[i..][1..] == coins[i + 1..];
    SumValuesAppend(m, coins[..i], coins[i..]);
    SumValuesAppend(m, coins[..i], coins[i + 1..]);
  }

  lemma MultisetWithout(coins: seq<Coin>, i: nat)
    requires i < |coins|
    ensures multiset(Without(coins, i)) == multiset(coins) - multiset{coins[i]}
  {
    assert coins == coins[..i] + ([coins[i]] + coins[i + 1..]);
  }

  lemma {:induction false} SumChargesReordered(m: Market, x: seq<Coin>, y: seq<Coin>)
    requires multiset(x) == multiset(y)
    ensures SumCharges(m, x) == SumCharges(m, y)
    decreases |x|
  {
    if x == [] {
      assert |multiset(y)| == 0;
    } else {
      assert x[0] in multiset(y);
      var i :| 0 <= i < |y| && y[i] == x[0];
      MultisetWithout(x, 0);
      MultisetWithout(y, i);
      assert Without(x, 0) == x[1..];
      SumChargesReordered(m, x[1..], Without(y, i));
      SumChargesWithout(m, y, i);
    }
  }

  /** The order of the coins decides neither whether a spend succeeds nor what is left. */
  lemma SpendIgnoresOrder(w: Wallet, m: Market, x: seq<Coin>, y: seq<Coin>)
    requires multiset(x) == multiset(y)
    ensures w.Spend(m, x).Ok? <==> w.Spend(m, y).Ok?
    ensures w.Spend(m, x).Ok? ==> w.Spend(m, x) == w.Spend(m, y)
  {
    SpendIsExact(w, m, x);
    SpendIsExact(w, m, y);
    SumChargesReordered(m, x, y);
    assert forall coin :: coin in x <==> coin in multiset(x);
    assert forall coin :: coin in y <==> coin in multiset(y);
    assert |x| == |multiset(x)| == |multiset(y)| == |y|;
  }

  lemma {:induction false} SumChargesBelowValues(m: Market, coins: seq<Coin>)
    ensures SumCharges(m, coins) <= SumValues(m, coins)
    ensures SumCharges(m, coins) == SumValues(m, coins)
            <==> forall coin :: coin in coins ==> UsdcValue(m, coin) < TWO_64
  {
    if coins != [] {
      SumChargesBelowValues(m, coins[1..]);
      assert forall coin :: coin in coins <==> coin == coins[0] || coin in coins[1..];
    }
  }

  /**
   When a spend succeeds, the limit drops by the whole USDC value, and the reported tally
   is that value without saturation, exactly when every coin is worth less than 2^64.
   */
  lemma TallyIsTheDrop(w: Wallet, m: Market, coins: seq<Coin>)
    requires w.Spend(m, coins).Ok?
    ensures (forall coin :: coin in coins ==> UsdcValue(m, coin) < TWO_64)
            <==> w.Remaining() - w.Spend(m, coins).value.Remaining() == SumValues(m, coins)
                                                                    == Saturate(SumValues(m, coins))
  {
    SpendIsExact(w, m, coins);
    SumChargesBelowValues(m, coins);
  }

  /** 2^64 micro-USDC is a coin whose cast charge is 0: an empty limit lets it pass. */
  lemma CastChargeExample(m: Market, w: Wallet)
    requires w.spendLimits != [] && w.Remaining() == 0
    ensures var coin := Coin(AXL_USDC, TWO_64);
            UsdcValue(m, coin) == TWO_64 && w.Spend(m, [coin]) == Ok(w)
  {
    var coin := Coin(AXL_USDC, TWO_64);
    assert w.WithRemaining(0) == w;
    SpendIsExact(w, m, [coin]);
  }

  /** One coin on its own fits in the limit. */
  predicate Fits(w: Wallet, m: Market, coin: Coin, reset: bool) {
    && m.GetConvertedToUsdc(coin, false).Ok?
    && w.spendLimits != []
    && Charge(m, coin) <= if reset then w.Amount() else w.Remaining()
  }

  /** The query's test accepts exactly when each coin on its own fits in the limit. */
  lemma {:induction false} CheckSpendIsPerCoin(w: Wallet, m: Market, coins: seq<Coin>, reset: bool)
    ensures w.CheckSpend(m, coins, reset).Ok? <==> forall coin :: coin in coins ==> Fits(w, m, coin, reset)
    decreases |coins|
  {
    if coins != [] {
      assert forall coin :: coin in coins <==> coin == coins[0] || coin in coins[1..];
      assert w.SimulateReduceLimit(m, coins[0], reset).Ok? <==> Fits(w, m, coins[0], reset);
      CheckSpendIsPerCoin(w, m, coins[1..], reset);
    }
  }

  // ----- refilling

  /** Day arithmetic never fails and never loses a bit, for any block time and multiple. */
  lemma DayResetIsExact(w: Wallet, now: Timestamp)
    requires w.periodType == DAYS
    ensures w.NextReset(now) == Ok(Seconds(now) + w.periodMultiple * SECONDS_PER_DAY)
    ensures w.spendLimits != []
            ==> w.ResetPeriod(now) == Ok(w.WithRemaining(w.Amount()).(
                                         currentPeriodReset := Seconds(now) + w.periodMultiple * SECONDS_PER_DAY))
  {
    BlockTimeIsEarly(now, w.periodMultiple);
  }

  /** The year and month the code asks for name the month that lies `multiple` ahead. */
  lemma NextMonthIsAhead(year: nat, month: nat, multiple: U16)
    requires 1970 <= year <= 2700 && 1 <= month <= 12
    ensures NextMonth(year, month, multiple).Ok?
            <==> 2 <= month + multiple <= 268 && (month + multiple <= 12 || (month + multiple) % 12 != 0)
    ensures NextMonth(year, month, multiple).Ok?
            ==> NextMonth(year, month, multiple).value == MonthStart(12 * year + month - 1 + multiple) * SECONDS_PER_DAY
  {
    var workingMonth := month + multiple;
    if 13 <= workingMonth <= 268 {
      assert 12 * (year + workingMonth / 12) + workingMonth % 12 - 1 == 12 * year + month - 1 + multiple;
    }
  }

  /**
   Month arithmetic answers exactly when the working month is 2 to 268 and not a multiple
   of 12 above 12. The answer is then midnight on the first day of the month that many
   months later, it fits in a u64, and it lies ahead exactly when the multiple is not 0. A
   month that does not exist, or does not fit in a u16, panics; the rest is an error.
   */
  lemma MonthResetIsExact(w: Wallet, now: Timestamp)
    requires w.periodType == MONTHS
    ensures var workingMonth := Month(Seconds(now)) + w.periodMultiple;
            w.NextReset(now).Ok? <==> 2 <= workingMonth <= 268 && (workingMonth <= 12 || workingMonth % 12 != 0)
    ensures w.NextReset(now).Ok? ==>
              var next := w.NextReset(now).value;
              && next == MonthStart(MonthOf(Seconds(now)) + w.periodMultiple) * SECONDS_PER_DAY < TWO_64
              && (next > Seconds(now) <==> w.periodMultiple >= 1)
    ensures w.NextReset(now).Err? ==>
              var workingMonth := Month(Seconds(now)) + w.periodMultiple;
              w.NextReset(now).error
              == if 13 <= workingMonth <= 268 || workingMonth >= 0x1_0000 then Panicked else MonthUpdateError
  {
    var year, month := Year(Seconds(now)), Month(Seconds(now));
    assert w.NextReset(now) == NextMonth(year, month, w.periodMultiple);
    assert year <= 2700 by {
      BlockTimeIsEarly(now, 0);
    }
    NextMonthIsAhead(year, month, w.periodMultiple);
    assert MonthOf(Seconds(now)) == 12 * year + month - 1 by {
      YearAndMonth(Seconds(now));
    }
    MonthsAheadFit(now, w.periodMultiple);
    MonthsAhead(Seconds(now), w.periodMultiple);
  }

  /** Some block time in every month of 1970. */
  function TimeIn1970(month: nat): Timestamp
    requires 1 <= month <= 12
  {
    MonthStartGrows(EPOCH_MONTH, EPOCH_MONTH + month - 1);
    MonthStart(EPOCH_MONTH + month - 1) * SECONDS_PER_DAY * 1_000_000_000
  }

  lemma TimeIn1970Month(month: nat)
    requires 1 <= month <= 12
    ensures Month(Seconds(TimeIn1970(month))) == month
  {
    var k := EPOCH_MONTH + month - 1;
    assert Seconds(TimeIn1970(month)) == MonthStart(k) * SECONDS_PER_DAY;
    MonthOfFirstSecond(k);
  }

  /** A multiple outside 1 to 11 asks for a month that does not exist, or for none, in some month. */
  lemma MonthThatFails(multiple: U16) returns (month: nat)
    requires !(1 <= multiple <= 11)
    ensures 1 <= month <= 12
    ensures month + multiple == 1 || (month + multiple > 12 && (month + multiple) % 12 == 0)
  {
    if multiple == 0 {
      month := 1;
    } else {
      month := 12 - multiple % 12;
      assert multiple == 12 * (multiple / 12) + multiple % 12;
      assert month + multiple == 12 * (multiple / 12 + 1);
    }
  }

  /**
   A month period can be computed at every block time exactly when its multiple is 1 to 11:
   any other multiple fails in some month of every year.
   */
  lemma MonthMultiplesThatNeverFail(w: Wallet)
    requires w.periodType == MONTHS
    ensures (forall now: Timestamp :: w.NextReset(now).Ok?) <==> 1 <= w.periodMultiple <= 11
  {
    if 1 <= w.periodMultiple <= 11 {
      forall now: Timestamp
        ensures w.NextReset(now).Ok?
      {
        MonthResetIsExact(w, now);
      }
    } else {
      var month := MonthThatFails(w.periodMultiple);
      TimeIn1970Month(month);
      MonthResetIsExact(w, TimeIn1970(month));
      assert !w.NextReset(TimeIn1970(month)).Ok?;
    }
  }

  /** A refill changes what is left, to the whole amount, and the reset time, and nothing else. */
  lemma RefillKeepsSettings(w: Wallet, now: Timestamp)
    requires w.ResetPeriod(now).Ok?
    ensures var w' := w.ResetPeriod(now).value;
            && w.spendLimits != []
            && w' == w.WithRemaining(w.Amount()).(currentPeriodReset := w'.currentPeriodReset)
            && w.NextReset(now).Ok? && w'.currentPeriodReset == AsU64(w.NextReset(now).value)
  {
  }

  /** The month period can be computed: the working month exists. */
  predicate MonthExists(w: Wallet, now: Timestamp) {
    var workingMonth := Month(Seconds(now)) + w.periodMultiple;
    2 <= workingMonth <= 268 && (workingMonth <= 12 || workingMonth % 12 != 0)
  }

  lemma RefillSucceeds(w: Wallet, now: Timestamp)
    ensures w.ResetPeriod(now).Ok? <==> w.spendLimits != [] && (w.periodType == DAYS || MonthExists(w, now))
    ensures w.ResetPeriod(now).Err? && w.spendLimits != [] ==>
              var workingMonth := Month(Seconds(now)) + w.periodMultiple;
              w.ResetPeriod(now).error
              == if 13 <= workingMonth <= 268 || workingMonth >= 0x1_0000 then Panicked else DayUpdateError
  {
    if w.periodType == DAYS {
      DayResetIsExact(w, now);
    } else {
      MonthResetIsExact(w, now);
    }
  }

  /**
   A refill succeeds exactly with a limit to refill and a period that can be computed. It
   makes the whole amount available, and the next reset is the given days away or midnight
   of the first of the month that many months away, which no cast shortens.
   */
  lemma RefillIsExact(w: Wallet, now: Timestamp)
    ensures w.ResetPeriod(now).Ok? <==> w.spendLimits != [] && (w.periodType == DAYS || MonthExists(w, now))
    ensures w.ResetPeriod(now).Ok? ==>
              var w' := w.ResetPeriod(now).value;
              && SameSettings(w, w') && w'.Remaining() == w.Amount()
              && w'.currentPeriodReset
                 == match w.periodType
                    case DAYS => Seconds(now) + w.periodMultiple * SECONDS_PER_DAY
                    case MONTHS => MonthStart(MonthOf(Seconds(now)) + w.periodMultiple) * SECONDS_PER_DAY
    ensures w.ResetPeriod(now).Err? && w.spendLimits != [] ==>
              var workingMonth := Month(Seconds(now)) + w.periodMultiple;
              w.ResetPeriod(now).error
              == if 13 <= workingMonth <= 268 || workingMonth >= 0x1_0000 then Panicked else DayUpdateError
  {
    RefillSucceeds(w, now);
    if w.ResetPeriod(now).Ok? {
      RefillKeepsSettings(w, now);
      if w.periodType == DAYS {
        DayResetIsExact(w, now);
      } else {
        MonthRefill(w, now);
      }
    }
  }

  lemma MonthRefill(w: Wallet, now: Timestamp)
    requires w.periodType == MONTHS && w.ResetPeriod(now).Ok?
    ensures var w' := w.ResetPeriod(now).value;
            && w'.periodType == MONTHS
            && w'.currentPeriodReset == MonthStart(MonthOf(Seconds(now)) + w.periodMultiple) * SECONDS_PER_DAY
            && (w.periodMultiple >= 1 ==> Seconds(now) <= w'.currentPeriodReset)
  {
    RefillKeepsSettings(w, now);
    MonthResetIsExact(w, now);
  }

  /**
   After a refill no later check at the same block time refills again, exactly unless the
   period is 0 months and the month has already begun.
   */
  lemma RefillsOncePerBlock(w: Wallet, now: Timestamp)
    requires w.ResetPeriod(now).Ok?
    ensures w.ResetPeriod(now).value.ShouldReset(now)
            <==> w.periodType == MONTHS && w.periodMultiple == 0
                 && Seconds(now) != MonthStart(MonthOf(Seconds(now))) * SECONDS_PER_DAY
  {
    if w.periodType == DAYS {
      DayResetIsExact(w, now);
    } else {
      MonthRefill(w, now);
      FirstOfMonthIsPast(Seconds(now), w.periodMultiple);
    }
  }

  lemma FirstOfMonthIsPast(s: nat, months: nat)
    ensures s > MonthStart(MonthOf(s) + months) * SECONDS_PER_DAY
            <==> months == 0 && s != MonthStart(MonthOf(s)) * SECONDS_PER_DAY
  {
    MonthsAhead(s, months);
  }

  // ----- accesses

  /** What an access charges against: the whole amount after a refill, else what is left. */
  function Applicable(w: Wallet, now: Timestamp): U64 {
    if w.ShouldReset(now) then w.Amount() else w.Remaining()
  }

  /** An access changes nothing of a wallet but its remaining limit and its reset time. */
  predicate SameSettings(w: Wallet, w': Wallet) {
    && w' == w.WithRemaining(w'.Remaining()).(currentPeriodReset := w'.currentPeriodReset)
  }

  /** Field by field: who, how often and how much stays; only the first limit's rest and the reset time may differ. */
  lemma SettingsFieldByField(w: Wallet, w': Wallet)
    ensures SameSettings(w, w')
            <==> && w'.address == w.address
                 && w'.periodType == w.periodType && w'.periodMultiple == w.periodMultiple
                 && w'.usdcDenom == w.usdcDenom && w'.isDefault == w.isDefault
                 && |w'.spendLimits| == |w.spendLimits|
                 && (w.spendLimits != [] ==>
                       && w'.spendLimits[0].denom == w.spendLimits[0].denom
                       && w'.spendLimits[0].amount == w.spendLimits[0].amount
                       && w'.spendLimits[1..] == w.spendLimits[1..])
  {
    if w.spendLimits != [] && |w'.spendLimits| == |w.spendLimits| {
      assert w'.spendLimits == [w'.spendLimits[0]] + w'.spendLimits[1..];
      assert w.WithRemaining(w'.Remaining()).spendLimits
             == [w.spendLimits[0].(limitRemaining := w'.Remaining())] + w.spendLimits[1..];
    }
  }

  lemma AccessIsExact(w: Wallet, m: Market, now: Timestamp, coins: seq<Coin>)
    ensures w.Access(m, now, coins).Ok?
            <==> && (w.ShouldReset(now) ==> w.ResetPeriod(now).Ok?)
                 && AllConvert(m, coins) && (coins == [] || w.spendLimits != [])
                 && SumCharges(m, coins) <= Applicable(w, now)
    ensures w.Access(m, now, coins).Ok? ==>
              var w' := w.Access(m, now, coins).value;
              && SameSettings(w, w')
              && w'.Remaining() == Applicable(w, now) - SumCharges(m, coins)
              && w'.currentPeriodReset == if w.ShouldReset(now) then w.ResetPeriod(now).value.currentPeriodReset
                                          else w.currentPeriodReset
  {
    if w.ShouldReset(now) {
      if w.ResetPeriod(now).Ok? {
        SpendIsExact(w.ResetPeriod(now).value, m, coins);
      }
    } else {
      SpendIsExact(w, m, coins);
    }
  }

  /** Why a coin is refused: it has no price, there is no limit, or it is over the limit. */
  function CoinRefusal(w: Wallet, m: Market, coin: Coin): Error {
    match m.GetConvertedToUsdc(coin, false)
    case Err(e) => e
    case Ok(usdc) => if w.spendLimits == [] then Panicked else CannotSpendMoreThanLimit(usdc.amount, usdc.denom)
  }

  /** A refused spend names the first coin that does not fit after those before it. */
  lemma {:induction false} SpendRefusal(w: Wallet, m: Market, coins: seq<Coin>)
    requires w.Spend(m, coins).Err?
    ensures exists i :: 0 <= i < |coins| && w.Spend(m, coins[..i]).Ok?
                        && w.Spend(m, coins) == Err(CoinRefusal(w, m, coins[i]))
    decreases |coins|
  {
    var reduced := w.SimulateReduceLimit(m, coins[0], false);
    if reduced.Err? {
      assert coins[..0] == [] && w.Spend(m, coins[..0]).Ok?;
    } else {
      var next, rest := w.WithRemaining(reduced.value.0), coins[1..];
      SpendRefusal(next, m, rest);
      var i :| 0 <= i < |rest| && next.Spend(m, rest[..i]).Ok?
               && next.Spend(m, rest) == Err(CoinRefusal(next, m, rest[i]));
      assert coins[..i + 1][1..] == rest[..i] && coins[i + 1] == rest[i];
      assert w.Spend(m, coins[..i + 1]) == next.Spend(m, rest[..i]);
    }
  }

  /** A refused access names the refill that cannot be computed, or the first coin that does not fit. */
  lemma AccessRefusal(w: Wallet, m: Market, now: Timestamp, coins: seq<Coin>)
    requires w.Access(m, now, coins).Err?
    ensures if w.ShouldReset(now) && w.ResetPeriod(now).Err? then
              w.Access(m, now, coins) == Err(w.ResetPeriod(now).error)
            else
              exists i :: 0 <= i < |coins| && w.Access(m, now, coins[..i]).Ok?
                          && w.Access(m, now, coins) == Err(CoinRefusal(w, m, coins[i]))
  {
    if !w.ShouldReset(now) {
      SpendRefusal(w, m, coins);
    } else if w.ResetPeriod(now).Ok? {
      var refilled := w.ResetPeriod(now).value;
      SpendRefusal(refilled, m, coins);
      var i :| 0 <= i < |coins| && refilled.Spend(m, coins[..i]).Ok?
               && refilled.Spend(m, coins) == Err(CoinRefusal(refilled, m, coins[i]));
      assert w.Access(m, now, coins[..i]) == refilled.Spend(m, coins[..i]);
    }
  }

  /** Every check at this time refills again: a period of 0 months, past its reset, in a month that has begun. */
  predicate RefillsAgain(w: Wallet, now: Timestamp) {
    && w.periodType == MONTHS && w.periodMultiple == 0 && w.ShouldReset(now)
    && Seconds(now) != MonthStart(MonthOf(Seconds(now))) * SECONDS_PER_DAY
  }

  /** Otherwise two accesses at the same time are one access with the coins of both, errors included. */
  lemma AccessInParts(w: Wallet, m: Market, now: Timestamp, x: seq<Coin>, y: seq<Coin>)
    requires !RefillsAgain(w, now)
    ensures w.Access(m, now, x + y)
            == match w.Access(m, now, x) case Ok(mid) => mid.Access(m, now, y) case Err(e) => Err(e)
    ensures w.Access(m, now, x).Ok? ==> !RefillsAgain(w.Access(m, now, x).value, now)
  {
    AccessIsExact(w, m, now, x);
    if !w.ShouldReset(now) {
      SpendInParts(w, m, x, y);
    } else if w.ResetPeriod(now).Ok? {
      RefillsOncePerBlock(w, now);
      SpendInParts(w.ResetPeriod(now).value, m, x, y);
    }
  }

  /** A refill does not depend on what is left or on the reset time before it. */
  lemma SameSettingsRefillAlike(w: Wallet, w': Wallet, now: Timestamp)
    requires SameSettings(w, w')
    ensures w'.ResetPeriod(now) == w.ResetPeriod(now)
  {
    assert w'.WithRemaining(w.Amount()).spendLimits == w.WithRemaining(w.Amount()).spendLimits;
  }

  /** While every check refills again, an access changes nothing for the next one. */
  lemma AccessAgain(w: Wallet, m: Market, now: Timestamp, x: seq<Coin>, y: seq<Coin>)
    requires RefillsAgain(w, now) && w.Access(m, now, x).Ok?
    ensures RefillsAgain(w.Access(m, now, x).value, now)
    ensures w.Access(m, now, x).value.Access(m, now, y) == w.Access(m, now, y)
  {
    AccessIsExact(w, m, now, x);
    RefillsOncePerBlock(w, now);
    SameSettingsRefillAlike(w, w.Access(m, now, x).value, now);
  }
}
