/**
 The Gregorian calendar from 1970 on (ISO 8601:2004, section 3.2.1), counted in linear
 months: month `k` is month `k % 12 + 1` of year `k / 12`. It stands for the vendored
 date library, whose source is not part of this model.
 */
module Calendar {
  import opened Prelude

  const SECONDS_PER_DAY: nat := 86400
  const EPOCH_MONTH: nat := 1970 * 12
  /** The last year the date library represents. */
  const LAST_YEAR: nat := 262143

  /** Block time: nanoseconds since the epoch, held in a u64. */
  type Timestamp = U64

  function Seconds(t: Timestamp): nat {
    t / 1_000_000_000
  }

  /** Block times are cut to whole seconds, never rounded up. */
  lemma SecondsIsFloor(t: Timestamp)
    ensures Seconds(t) * 1_000_000_000 <= t < (Seconds(t) + 1) * 1_000_000_000
  {
  }

  predicate LeapYear(y: nat) {
    y % 4 == 0 && (y % 100 != 0 || y % 400 == 0)
  }

  function DaysInMonth(k: nat): (d: nat)
    ensures 28 <= d <= 31
  {
    var month := k % 12 + 1;
    if month == 2 then
      if LeapYear(k / 12) then 29 else 28
    else if month == 4 || month == 6 || month == 9 || month == 11 then 30
    else 31
  }

  /** Days from the epoch to the first day of month `k`. */
  function MonthStart(k: nat): nat
    requires EPOCH_MONTH <= k
  {
    if k == EPOCH_MONTH then 0 else MonthStart(k - 1) + DaysInMonth(k - 1)
  }

  /** The month, `k` or later, that holds the given day. */
  function MonthFrom(day: nat, k: nat): (r: nat)
    requires EPOCH_MONTH <= k && MonthStart(k) <= day
    ensures k <= r && MonthStart(r) <= day < MonthStart(r + 1)
    decreases day - MonthStart(k)
  {
    if day < MonthStart(k + 1) then k else MonthFrom(day, k + 1)
  }

  /** The linear month of a second since the epoch. */
  function MonthOf(s: nat): (k: nat)
    ensures EPOCH_MONTH <= k
    ensures MonthStart(k) * SECONDS_PER_DAY <= s < MonthStart(k + 1) * SECONDS_PER_DAY
  {
    MonthFrom(s / SECONDS_PER_DAY, EPOCH_MONTH)
  }

  function Year(s: nat): (y: nat)
    ensures 1970 <= y
  {
    MonthOf(s) / 12
  }

  function Month(s: nat): (m: nat)
    ensures 1 <= m <= 12
  {
    MonthOf(s) % 12 + 1
  }

  /** Midnight of the first day of a month; asking for a month that does not exist panics. */
  function FirstOfMonth(year: nat, month: nat): Result<nat>
    requires 1970 <= year
  {
    if 1 <= month <= 12 && year <= LAST_YEAR then
      Ok(MonthStart(12 * year + month - 1) * SECONDS_PER_DAY)
    else
      Err(Panicked)
  }

  /** The last second the date library represents. */
  function LastSecond(): int {
    MonthStart(12 * (LAST_YEAR + 1)) * SECONDS_PER_DAY - 1
  }

  /** A date plus a number of days, or nothing when the date library cannot represent it. */
  function CheckedAddDays(s: nat, days: nat): Option<nat> {
    var sum := s + days * SECONDS_PER_DAY;
    if sum <= LastSecond() then Some(sum) else None
  }

  // ----- what the calendar keeps

  lemma {:induction false} MonthStartGrows(j: nat, k: nat)
    requires EPOCH_MONTH <= j <= k
    ensures 28 * (k - j) <= MonthStart(k) - MonthStart(j) <= 31 * (k - j)
    decreases k
  {
    if j < k {
      MonthStartGrows(j, k - 1);
    }
  }

  lemma MonthOfIsTheOnlyOne(s: nat, k: nat)
    requires EPOCH_MONTH <= k
    requires MonthStart(k) * SECONDS_PER_DAY <= s < MonthStart(k + 1) * SECONDS_PER_DAY
    ensures MonthOf(s) == k
  {
    var r := MonthOf(s);
    if r < k {
      MonthStartGrows(r + 1, k);
    } else if k < r {
      MonthStartGrows(k + 1, r);
    }
  }

  lemma MonthOfFirstSecond(k: nat)
    requires EPOCH_MONTH <= k
    ensures MonthOf(MonthStart(k) * SECONDS_PER_DAY) == k
  {
    MonthOfIsTheOnlyOne(MonthStart(k) * SECONDS_PER_DAY, k);
  }

  lemma YearAndMonth(s: nat)
    ensures MonthOf(s) == 12 * Year(s) + Month(s) - 1
  {
  }

  lemma MonthOfMonotone(s: nat, t: nat)
    requires s <= t
    ensures MonthOf(s) <= MonthOf(t)
  {
    var j, k := MonthOf(s), MonthOf(t);
    if k < j {
      MonthStartGrows(k + 1, j);
    }
  }

  /** Days of a year before its month `i`, counted from 0; `i == 12` is the whole year. */
  function DaysBeforeMonth(leap: bool, i: nat): nat
    requires i <= 12
  {
    [0, 31, 59, 90, 120, 151, 181, 212, 243, 273, 304, 334, 365][i] + if leap && 2 <= i then 1 else 0
  }

  lemma {:induction false} MonthStartInYear(y: nat, i: nat)
    requires 1970 <= y && i <= 12
    ensures MonthStart(12 * y + i) == MonthStart(12 * y) + DaysBeforeMonth(LeapYear(y), i)
  {
    if i > 0 {
      MonthStartInYear(y, i - 1);
      var k := 12 * y + (i - 1);
      assert k % 12 == i - 1 && k / 12 == y;
    }
  }

  lemma YearLength(y: nat)
    requires 1970 <= y
    ensures MonthStart(12 * (y + 1)) == MonthStart(12 * y) + if LeapYear(y) then 366 else 365
  {
    MonthStartInYear(y, 12);
  }

  /** IEEE Std 1003.1-2017, Base Definitions, section 4.16, for midnight on 1 January. */
  function PosixSeconds(y: nat): int
    requires 1970 <= y
  {
    var tmYear := y - 1900;
    (tmYear - 70) * 31536000 + ((tmYear - 69) / 4) * 86400
    - ((tmYear - 1) / 100) * 86400 + ((tmYear + 299) / 400) * 86400
  }

  lemma QuotientStep(x: nat, d: nat)
    requires d == 4 || d == 100 || d == 400
    ensures (x + 1) / d == x / d + if (x + 1) % d == 0 then 1 else 0
  {
  }

  /** The leap days since 1970 that the POSIX formula counts, with `t` the year less 1900. */
  function PosixLeapDays(t: nat): int
    requires 70 <= t
  {
    (t - 69) / 4 - (t - 1) / 100 + (t + 299) / 400
  }

  lemma LeapYearSince1900(t: nat)
    requires 70 <= t
    ensures LeapYear(t + 1900) <==> (t - 68) % 4 == 0 && (t % 100 != 0 || (t + 300) % 400 == 0)
  {
    assert t + 1900 == (t - 68) + 4 * 492;
    assert t + 1900 == t + 100 * 19;
    assert t + 1900 == (t + 300) + 400 * 4;
  }

  lemma MultipleOfFour(q: nat)
    ensures 4 * q % 4 == 0
  {
  }

  lemma MultipleOfHundred(q: nat)
    ensures 100 * q % 100 == 0
  {
  }

  /** Of the years the POSIX formula counts, each century is one of four, and each of 400 is a century. */
  lemma CenturyIsOneOfFour(t: nat)
    requires 70 <= t && t % 100 == 0
    ensures (t - 68) % 4 == 0
  {
    MultipleOfFour(25 * (t / 100) - 17);
    assert t - 68 == 4 * (25 * (t / 100) - 17);
  }

  lemma FourthCenturyIsCentury(t: nat)
    requires (t + 300) % 400 == 0
    ensures t % 100 == 0
  {
    MultipleOfHundred(4 * ((t + 300) / 400) - 3);
    assert t == 100 * (4 * ((t + 300) / 400) - 3);
  }

  lemma PosixLeapDaysStep(t: nat)
    requires 70 <= t
    ensures PosixLeapDays(t + 1) == PosixLeapDays(t) + if LeapYear(t + 1900) then 1 else 0
  {
    QuotientStep(t - 69, 4);
    QuotientStep(t - 1, 100);
    QuotientStep(t + 299, 400);
    LeapYearSince1900(t);
    if t % 100 == 0 {
      CenturyIsOneOfFour(t);
    } else if (t + 300) % 400 == 0 {
      FourthCenturyIsCentury(t);
    }
  }

  lemma PosixYearLength(y: nat)
    requires 1970 <= y
    ensures PosixSeconds(y + 1) == PosixSeconds(y) + SECONDS_PER_DAY * if LeapYear(y) then 366 else 365
  {
    PosixLeapDaysStep(y - 1900);
    assert PosixSeconds(y) == SECONDS_PER_DAY * (365 * (y - 1970) + PosixLeapDays(y - 1900));
    assert PosixSeconds(y + 1) == SECONDS_PER_DAY * (365 * (y - 1969) + PosixLeapDays(y - 1899));
  }

  /** Counting month by month gives the closed formula of the POSIX standard. */
  lemma {:induction false} MonthStartIsPosix(y: nat)
    requires 1970 <= y
    ensures MonthStart(12 * y) * SECONDS_PER_DAY == PosixSeconds(y)
  {
    if y > 1970 {
      MonthStartIsPosix(y - 1);
      YearLength(y - 1);
      PosixYearLength(y - 1);
    }
  }

  /** Any second a block can carry lies well inside the range of the date library. */
  lemma BlockTimeIsEarly(t: Timestamp, days: nat)
    requires days < 0x1_0000
    ensures Seconds(t) + days * SECONDS_PER_DAY <= LastSecond()
    ensures Seconds(t) + days * SECONDS_PER_DAY < TWO_64
    ensures 1970 <= Year(Seconds(t)) <= 2700
  {
    MonthStartGrows(EPOCH_MONTH, 12 * (LAST_YEAR + 1));
    MonthStartGrows(EPOCH_MONTH, MonthOf(Seconds(t)));
  }

  lemma MonthsAheadFit(t: Timestamp, months: nat)
    requires months < 0x1_0000
    ensures MonthStart(MonthOf(Seconds(t)) + months) * SECONDS_PER_DAY < TWO_64
  {
    MonthStartGrows(MonthOf(Seconds(t)), MonthOf(Seconds(t)) + months);
  }

  /** The first of the month some months ahead lies ahead exactly when that is at least one. */
  lemma MonthsAhead(s: nat, months: nat)
    ensures MonthStart(MonthOf(s) + months) * SECONDS_PER_DAY > s <==> months >= 1
  {
    var k := MonthOf(s);
    assert MonthStart(k) * SECONDS_PER_DAY <= s < MonthStart(k + 1) * SECONDS_PER_DAY;
    if months >= 1 {
      MonthStartGrows(k + 1, k + months);
    }
  }
}
