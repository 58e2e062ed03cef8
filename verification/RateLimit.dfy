/**
 How much a wallet can still be charged up to some moment. Days and months are treated
 alike: a refill needs the wallet's clock to have reached a gate, and moves the gate ahead
 by a fixed pace.
 */
module RateLimit {
  import opened Prelude
  import opened Calendar
  import opened Pricing
  import opened HotWallets
  import opened SpendProperties

  /** The clock of a period type: seconds, or linear months. */
  function Clock(w: Wallet, s: nat): nat {
    match w.periodType
    case DAYS => s
    case MONTHS => MonthOf(s)
  }

  /** The first clock reading at which the wallet may refill. */
  function Gate(w: Wallet): nat {
    match w.periodType
    case DAYS => w.currentPeriodReset + 1
    case MONTHS => MonthOf(w.currentPeriodReset)
  }

  /** How far apart two refills are on the clock. */
  function Pace(w: Wallet): nat {
    match w.periodType
    case DAYS => w.periodMultiple * SECONDS_PER_DAY + 1
    case MONTHS => w.periodMultiple
  }

  /** The amount once for each of `first`, `first + pace`, `first + 2 * pace`, ... up to `last`. */
  function Allowance(amount: nat, first: nat, last: nat, pace: nat): nat
    requires pace > 0
    decreases last + pace - first
  {
    if last < first then 0 else amount + Allowance(amount, first + pace, last, pace)
  }

  function Max(x: nat, y: nat): nat {
    if x < y then y else x
  }

  /** What all refills between the seconds `s` and `end` can bring. */
  function Refills(w: Wallet, s: nat, end: nat): nat
    requires Pace(w) > 0
  {
    Allowance(w.Amount(), Max(Clock(w, s), Gate(w)), Clock(w, end), Pace(w))
  }

  /** The most that can be charged between `s` and `end`; once a refill is due, what is left is lost. */
  function Budget(w: Wallet, s: nat, end: nat): nat
    requires Pace(w) > 0
  {
    (if s > w.currentPeriodReset then 0 else w.Remaining()) + Refills(w, s, end)
  }

  // ----- arithmetic

  lemma ProductMonotone(a: nat, x: nat, y: nat)
    requires x <= y
    ensures a * x <= a * y
  {
  }

  lemma OneMore(a: nat, n: nat)
    ensures a * (n + 1) == a * n + a
  {
  }

  lemma ProductsSpread(d: nat, x: nat, y: nat)
    ensures x < y ==> d * x + d <= d * y
  {
    if x < y {
      ProductMonotone(d, x + 1, y);
      OneMore(d, x);
    }
  }

  lemma Quotient(x: nat, d: nat)
    requires d > 0
    ensures d * (x / d) <= x < d * (x / d) + d
  {
    assert x == d * (x / d) + x % d;
  }

  lemma QuotientMonotone(x: nat, y: nat, d: nat)
    requires d > 0 && x <= y
    ensures x / d <= y / d
  {
    Quotient(x, d);
    Quotient(y, d);
    ProductsSpread(d, y / d, x / d);
  }

  lemma QuotientLess(x: nat, d: nat)
    requires 0 < d <= x
    ensures x / d == (x - d) / d + 1
  {
    var q := (x - d) / d + 1;
    Quotient(x, d);
    Quotient(x - d, d);
    OneMore(d, (x - d) / d);
    ProductsSpread(d, x / d, q);
    ProductsSpread(d, q, x / d);
  }

  lemma {:induction false} AllowanceClosedForm(amount: nat, first: nat, last: nat, pace: nat)
    requires pace > 0 && first <= last
    ensures Allowance(amount, first, last, pace) == amount * ((last - first) / pace + 1)
    decreases last - first
  {
    if first + pace <= last {
      AllowanceClosedForm(amount, first + pace, last, pace);
      QuotientLess(last - first, pace);
      OneMore(amount, (last - first) / pace);
    } else {
      Quotient(last - first, pace);
      ProductsSpread(pace, 0, (last - first) / pace);
    }
  }

  lemma {:induction false} AllowanceShrinks(amount: nat, first: nat, later: nat, last: nat, pace: nat)
    requires pace > 0 && first <= later
    ensures Allowance(amount, later, last, pace) <= Allowance(amount, first, last, pace)
    decreases last + pace - first
  {
    if later <= last {
      AllowanceShrinks(amount, first + pace, later + pace, last, pace);
    }
  }

  lemma {:induction false} AllowanceGrows(amount: nat, first: nat, last: nat, later: nat, pace: nat)
    requires pace > 0 && last <= later
    ensures Allowance(amount, first, last, pace) <= Allowance(amount, first, later, pace)
    decreases last + pace - first
  {
    if first <= last {
      AllowanceGrows(amount, first + pace, last, later, pace);
    }
  }

  lemma {:induction false} AllowanceShift(amount: nat, first: nat, last: nat, pace: nat, shift: nat)
    requires pace > 0
    ensures Allowance(amount, first + shift, last + shift, pace) == Allowance(amount, first, last, pace)
    decreases last + pace - first
  {
    if first <= last {
      AllowanceShift(amount, first + pace, last, pace, shift);
    }
  }

  // ----- the gate

  lemma RefillNeedsGate(w: Wallet, s: nat)
    requires s > w.currentPeriodReset
    ensures Gate(w) <= Clock(w, s)
  {
    MonthOfMonotone(w.currentPeriodReset, s);
  }

  lemma MonthGate(w: Wallet, k: nat)
    requires w.periodType == MONTHS && EPOCH_MONTH <= k
    requires w.currentPeriodReset == MonthStart(k) * SECONDS_PER_DAY
    ensures Gate(w) == k
  {
    MonthOfFirstSecond(k);
  }

  lemma MonthRefillMovesGate(w: Wallet, now: Timestamp)
    requires w.periodType == MONTHS && w.periodMultiple >= 1 && w.ResetPeriod(now).Ok?
    ensures Gate(w.ResetPeriod(now).value) == MonthOf(Seconds(now)) + w.periodMultiple
    ensures Seconds(now) <= w.ResetPeriod(now).value.currentPeriodReset
  {
    MonthRefill(w, now);
    MonthGate(w.ResetPeriod(now).value, MonthOf(Seconds(now)) + w.periodMultiple);
  }

  lemma RefillMovesGate(w: Wallet, now: Timestamp)
    requires w.ResetPeriod(now).Ok? && Pace(w) > 0
    ensures Gate(w.ResetPeriod(now).value) == Clock(w, Seconds(now)) + Pace(w)
    ensures Seconds(now) <= w.ResetPeriod(now).value.currentPeriodReset
  {
    if w.periodType == DAYS {
      DayResetIsExact(w, now);
    } else {
      MonthRefillMovesGate(w, now);
    }
  }

  lemma ClockMonotone(w: Wallet, s: nat, t: nat)
    requires s <= t
    ensures Clock(w, s) <= Clock(w, t)
  {
    MonthOfMonotone(s, t);
  }

  // ----- the budget

  /** Waiting never adds to the budget of a fixed end. */
  lemma BudgetShrinks(w: Wallet, s: nat, t: nat, end: nat)
    requires Pace(w) > 0 && s <= t
    ensures Budget(w, t, end) <= Budget(w, s, end)
  {
    ClockMonotone(w, s, t);
    AllowanceShrinks(w.Amount(), Max(Clock(w, s), Gate(w)), Max(Clock(w, t), Gate(w)), Clock(w, end), Pace(w));
  }

  lemma AllowanceFromGate(amount: nat, clock: nat, gate: nat, last: nat, pace: nat)
    requires pace > 0 && gate <= clock <= last
    ensures Allowance(amount, Max(clock, gate), last, pace)
            == amount + Allowance(amount, Max(clock, clock + pace), last, pace)
  {
  }

  /** A refill at `now` takes one amount out of the refills that are left. */
  lemma RefillUsesOne(w: Wallet, now: Timestamp, end: nat)
    requires Pace(w) > 0 && w.ShouldReset(now) && Seconds(now) <= end
    requires w.ResetPeriod(now).Ok?
    ensures var refilled := w.ResetPeriod(now).value;
            && Pace(refilled) == Pace(w)
            && Budget(w, Seconds(now), end) == w.Amount() + Refills(refilled, Seconds(now), end)
  {
    RefillKeepsSettings(w, now);
    RefillNeedsGate(w, Seconds(now));
    RefillMovesGate(w, now);
    ClockMonotone(w, Seconds(now), end);
    AllowanceFromGate(w.Amount(), Clock(w, Seconds(now)), Gate(w), Clock(w, end), Pace(w));
  }

  /** The budget depends on the settings, the reset time and what is left, and on nothing else. */
  lemma BudgetOf(w: Wallet, w': Wallet, s: nat, end: nat)
    requires Pace(w) > 0 && SameSettings(w, w') && w'.currentPeriodReset == w.currentPeriodReset
    requires s <= w.currentPeriodReset
    ensures Pace(w') == Pace(w) && w'.Amount() == w.Amount()
    ensures Budget(w', s, end) == w'.Remaining() + Refills(w, s, end)
  {
  }

  lemma AccessWithRefill(w: Wallet, m: Market, now: Timestamp, coins: seq<Coin>, end: nat)
    requires Pace(w) > 0 && Seconds(now) <= end && w.ShouldReset(now)
    requires w.Access(m, now, coins).Ok?
    ensures Pace(w.Access(m, now, coins).value) == Pace(w)
    ensures SumCharges(m, coins) + Budget(w.Access(m, now, coins).value, Seconds(now), end)
            == Budget(w, Seconds(now), end)
  {
    var s, refilled, w' := Seconds(now), w.ResetPeriod(now).value, w.Access(m, now, coins).value;
    RefillKeepsSettings(w, now);
    RefillMovesGate(w, now);
    RefillUsesOne(w, now, end);
    SpendIsExact(refilled, m, coins);
    assert refilled.Remaining() == w.Amount() == refilled.Amount();
    BudgetOf(refilled, w', s, end);
  }

  lemma AccessWithoutRefill(w: Wallet, m: Market, now: Timestamp, coins: seq<Coin>, end: nat)
    requires Pace(w) > 0 && !w.ShouldReset(now)
    requires w.Access(m, now, coins).Ok?
    ensures Pace(w.Access(m, now, coins).value) == Pace(w)
    ensures SumCharges(m, coins) + Budget(w.Access(m, now, coins).value, Seconds(now), end)
            == Budget(w, Seconds(now), end)
  {
    AccessIsExact(w, m, now, coins);
    BudgetOf(w, w, Seconds(now), end);
    BudgetOf(w, w.Access(m, now, coins).value, Seconds(now), end);
  }

  /** The ledger: an access takes its charges, and nothing more, out of the budget. */
  lemma AccessTakesFromBudget(w: Wallet, m: Market, now: Timestamp, coins: seq<Coin>, end: nat)
    requires Pace(w) > 0 && Seconds(now) <= end
    requires w.Access(m, now, coins).Ok?
    ensures Pace(w.Access(m, now, coins).value) == Pace(w)
    ensures SumCharges(m, coins) + Budget(w.Access(m, now, coins).value, Seconds(now), end)
            == Budget(w, Seconds(now), end)
  {
    if w.ShouldReset(now) {
      AccessWithRefill(w, m, now, coins, end);
    } else {
      AccessWithoutRefill(w, m, now, coins, end);
    }
  }

  // ----- what the budget comes to

  /** The amount once, and once more for every period of `pace` seconds started within `span`. */
  function DayAllowance(amount: nat, pace: nat, span: nat): nat
    requires pace > 0
  {
    amount + Allowance(amount, 1, span, pace)
  }

  function CeilDiv(x: nat, d: nat): nat
    requires d > 0
  {
    if x == 0 then 0 else (x - 1) / d + 1
  }

  lemma DayAllowanceClosedForm(amount: nat, pace: nat, span: nat)
    requires pace > 0
    ensures DayAllowance(amount, pace, span) == amount * (CeilDiv(span, pace) + 1)
    ensures DayAllowance(amount, pace, span) <= amount * (span / pace + 2)
  {
    OneMore(amount, CeilDiv(span, pace));
    Quotient(span, pace);
    if span > 0 {
      AllowanceClosedForm(amount, 1, span, pace);
      QuotientMonotone(span - 1, span, pace);
    }
    ProductMonotone(amount, CeilDiv(span, pace) + 1, span / pace + 2);
  }

  lemma DayRefills(amount: nat, first: nat, end: nat, span: nat, pace: nat)
    requires pace > 0 && first <= end <= first + span
    ensures Allowance(amount, first + 1, end, pace) + amount <= DayAllowance(amount, pace, span)
    ensures Allowance(amount, first, end, pace) <= DayAllowance(amount, pace, span)
  {
    AllowanceShift(amount, 1, end - first, pace, first);
    AllowanceGrows(amount, 1, end - first, span, pace);
    AllowanceShrinks(amount, first + 1, first + pace, end, pace);
  }

  /** A span of `span` seconds holds what was left or one amount, and a refill per started period. */
  lemma DayBudget(w: Wallet, s: nat, end: nat, span: nat)
    requires w.periodType == DAYS
    requires s <= end <= s + span
    ensures Budget(w, s, end) <= Max(w.Remaining(), w.Amount()) + Allowance(w.Amount(), 1, span, Pace(w))
  {
    DayRefills(w.Amount(), s, end, span, Pace(w));
    if s <= w.currentPeriodReset {
      AllowanceShrinks(w.Amount(), s + 1, w.currentPeriodReset + 1, end, Pace(w));
    }
  }

  /** From month `MonthOf(s)` on there is at most a refill per started period. */
  lemma MonthBudget(w: Wallet, s: nat, end: nat)
    requires w.periodType == MONTHS && w.periodMultiple >= 1
    ensures Budget(w, s, end)
            <= w.Remaining() + Allowance(w.Amount(), MonthOf(s), MonthOf(end), w.periodMultiple)
  {
    AllowanceShrinks(w.Amount(), MonthOf(s), Max(MonthOf(s), Gate(w)), MonthOf(end), w.periodMultiple);
  }
}
