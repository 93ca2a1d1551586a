/**
 internal/config/dateutil.go on the proleptic Gregorian calendar. An instant is a number of
 nanoseconds since midnight UTC on 1 January of year 0; dates are taken in UTC.
 */
module Calendar {
  import opened Outcome
  import opened Duration

  type Instant = int

  const DAY: int := 86_400_000_000_000

  function DayOf(t: Instant): int {
    t / DAY
  }

  function Midnight(day: int): Instant {
    day * DAY
  }

  /** StripTime */
  function StripTime(t: Instant): (r: Instant)
    ensures r <= t < r + DAY && DayOf(r) == DayOf(t)
  {
    Midnight(DayOf(t))
  }

  lemma MidnightOrder(t: Instant, day: int)
    ensures t < Midnight(day) <==> DayOf(t) < day
    ensures DayOf(Midnight(day)) == day
  {
  }

  // ---------------------------------------------------------------------------------------
  // Months. Month index i is month (i mod 12) + 1 of year (i div 12).

  predicate IsLeap(y: int) {
    y % 4 == 0 && (y % 100 != 0 || y % 400 == 0)
  }

  function MonthLength(i: int): (n: nat)
    ensures 28 <= n <= 31
  {
    var m := i % 12;
    if m == 1 then (if IsLeap(i / 12) then 29 else 28)
    else if m == 3 || m == 5 || m == 8 || m == 10 then 30
    else 31
  }

  /** The day number of the first day of month i, counted from January of year 0. */
  function MonthStart(i: int): int
    decreases if i < 0 then -i else i
  {
    if i == 0 then 0
    else if i > 0 then MonthStart(i - 1) + MonthLength(i - 1)
    else MonthStart(i + 1) - MonthLength(i)
  }

  lemma MonthStartNext(i: int)
    ensures MonthStart(i + 1) == MonthStart(i) + MonthLength(i)
  {
  }

  /** The length of the k-th month of a common year, as every calendar prints it. */
  function CommonLength(k: int): int
    requires 0 <= k < 12
  {
    match k
    case 1 => 28
    case 3 => 30
    case 5 => 30
    case 8 => 30
    case 10 => 30
    case _ => 31
  }

  lemma MonthLengthsOf(y: int, k: int)
    requires 0 <= k < 12
    ensures MonthLength(12 * y + k) == CommonLength(k) + (if k == 1 && IsLeap(y) then 1 else 0)
  {
    assert (12 * y + k) % 12 == k && (12 * y + k) / 12 == y;
  }

  /** Days of a common year before its k-th month. */
  function DaysBefore(k: int): int
    requires 0 <= k <= 12
  {
    if k == 0 then 0 else DaysBefore(k - 1) + CommonLength(k - 1)
  }

  lemma {:induction false} MonthsFrom(i: int, leap: int, k: int)
    requires 0 <= k <= 12
    requires forall m :: 0 <= m < k ==> MonthLength(i + m) == CommonLength(m) + (if m == 1 then leap else 0)
    ensures MonthStart(i + k) == MonthStart(i) + DaysBefore(k) + (if k >= 2 then leap else 0)
  {
    if k > 0 {
      MonthsFrom(i, leap, k - 1);
      MonthStartNext(i + (k - 1));
      assert MonthLength(i + (k - 1)) == CommonLength(k - 1) + (if k - 1 == 1 then leap else 0);
    }
  }

  lemma MonthsInYear(y: int, k: int)
    requires 0 <= k <= 12
    ensures MonthStart(12 * y + k) == MonthStart(12 * y) + DaysBefore(k) + (if k >= 2 && IsLeap(y) then 1 else 0)
  {
    forall m | 0 <= m < k
      ensures MonthLength(12 * y + m) == CommonLength(m) + (if m == 1 then (if IsLeap(y) then 1 else 0) else 0)
    {
      MonthLengthsOf(y, m);
    }
    MonthsFrom(12 * y, if IsLeap(y) then 1 else 0, k);
  }

  /** Years have 365 days, leap years 366. */
  lemma YearLength(y: int)
    ensures MonthStart(12 * (y + 1)) - MonthStart(12 * y) == if IsLeap(y) then 366 else 365
  {
    MonthsInYear(y, 12);
    assert DaysBefore(4) == 120 && DaysBefore(8) == 243 && DaysBefore(12) == 365;
    assert 12 * (y + 1) == 12 * y + 12;
  }

  /** Months are 28 to 31 days apart. */
  lemma {:induction false} MonthStartSpread(i: int, j: int)
    requires i <= j
    ensures MonthStart(i) + 28 * (j - i) <= MonthStart(j) <= MonthStart(i) + 31 * (j - i)
    decreases j - i
  {
    if i < j {
      MonthStartSpread(i, j - 1);
      MonthStartNext(j - 1);
    }
  }

  /** Searching upward from month i for the one that holds day n. */
  function MonthFrom(n: int, i: int): (r: int)
    requires MonthStart(i) <= n
    ensures MonthStart(r) <= n < MonthStart(r + 1)
    decreases n - MonthStart(i)
  {
    MonthStartNext(i);
    if n < MonthStart(i + 1) then i else MonthFrom(n, i + 1)
  }

  function MonthOf(n: int): (r: int)
    ensures MonthStart(r) <= n < MonthStart(r + 1)
  {
    var low := if n >= 0 then 0 else n;
    assert MonthStart(0) == 0;
    MonthStartSpread(if n >= 0 then 0 else n, 0);
    MonthFrom(n, low)
  }

  lemma MonthOfIs(n: int, i: int)
    requires MonthStart(i) <= n < MonthStart(i + 1)
    ensures MonthOf(n) == i
  {
    var r := MonthOf(n);
    if r < i { MonthStartSpread(r + 1, i); }
    if i < r { MonthStartSpread(i + 1, r); }
  }

  datatype Civil = Civil(year: int, month: int, day: int)

  predicate ValidCivil(c: Civil) {
    1 <= c.month <= 12 && 1 <= c.day <= MonthLength(12 * c.year + c.month - 1)
  }

  /** The calendar date of a day number. */
  function CivilOf(n: int): (c: Civil)
    ensures ValidCivil(c)
  {
    var i := MonthOf(n);
    MonthStartNext(i);
    assert 12 * (i / 12) + (i % 12 + 1) - 1 == i;
    Civil(i / 12, i % 12 + 1, n - MonthStart(i) + 1)
  }

  /** time.Date: out-of-range months carry into years, then out-of-range days into months. */
  function DateDay(c: Civil): int {
    MonthStart(12 * c.year + c.month - 1) + c.day - 1
  }

  /** Day numbers and valid calendar dates are the same thing. */
  lemma CivilRoundTrip(n: int, c: Civil)
    ensures DateDay(CivilOf(n)) == n
    ensures ValidCivil(c) ==> CivilOf(DateDay(c)) == c
  {
    var i := MonthOf(n);
    assert 12 * (i / 12) + (i % 12 + 1) - 1 == i;
    if ValidCivil(c) {
      var k := 12 * c.year + c.month - 1;
      MonthStartNext(k);
      MonthOfIs(DateDay(c), k);
      assert k / 12 == c.year && k % 12 == c.month - 1;
    }
  }

  /** Time.AddDate on midnight of day n. */
  function AddDate(n: int, years: int, months: int, days: int): int {
    var c := CivilOf(n);
    DateDay(Civil(c.year + years, c.month + months, c.day + days))
  }

  /** AddDate moves to the same position in the target month, then counts days. */
  lemma AddDateIs(n: int, years: int, months: int, days: int)
    ensures var i := MonthOf(n);
            AddDate(n, years, months, days) == MonthStart(i + 12 * years + months) + (n - MonthStart(i)) + days
  {
  }

  // ---------------------------------------------------------------------------------------
  // Durations added to dates.

  datatype DateError = NegativeValue | InvalidPeriod | Unparsed(cause: DurationError)

  function Shift(n: int, value: int, period: string): Result<int, DateError> {
    if period == "D" then Ok(AddDate(n, 0, 0, value))
    else if period == "M" then Ok(AddDate(n, 0, value, 0))
    else if period == "Y" then Ok(AddDate(n, value, 0, 0))
    else Err(InvalidPeriod)
  }

  function AddDuration(base: Instant, value: int, period: string): Result<Instant, DateError> {
    if value < 0 then Err(NegativeValue)
    else
      match Shift(DayOf(base), value, period)
      case Err(e) => Err(e)
      case Ok(day) => Ok(Midnight(day))
  }

  function SubtractDuration(base: Instant, value: int, period: string): Result<Instant, DateError> {
    if value < 0 then Err(NegativeValue)
    else
      match Shift(DayOf(base), -value, period)
      case Err(e) => Err(e)
      case Ok(day) => Ok(Midnight(day))
  }

  /** Whether the expiration date is no later than today plus the given duration. */
  function IsWithinPeriod(expiration: Instant, today: Instant, renewWithin: string): Result<bool, DateError> {
    match ParseDuration(renewWithin)
    case Err(e) => Err(Unparsed(e))
    case Ok(d) =>
      match AddDuration(StripTime(today), d.value, d.period)
      case Err(e) => Err(e)
      case Ok(threshold) => Ok(StripTime(expiration) <= threshold)
  }

  /** IsExpired */
  predicate IsExpired(expiration: Instant, today: Instant) {
    StripTime(expiration) < StripTime(today)
  }

  lemma ExpiredByDate(expiration: Instant, today: Instant)
    ensures IsExpired(expiration, today) <==> DayOf(expiration) < DayOf(today)
  {
  }

  lemma DaysStrict(n: int, a: int, b: int)
    requires a < b
    ensures AddDate(n, 0, 0, a) < AddDate(n, 0, 0, b)
  {
  }

  lemma MonthsStrict(n: int, a: int, b: int)
    requires a < b
    ensures AddDate(n, 0, a, 0) < AddDate(n, 0, b, 0)
  {
    AddDateIs(n, 0, a, 0);
    AddDateIs(n, 0, b, 0);
    MonthStartSpread(MonthOf(n) + a, MonthOf(n) + b);
  }

  lemma YearsAsMonths(n: int, y: int)
    ensures AddDate(n, y, 0, 0) == AddDate(n, 0, 12 * y, 0)
  {
    AddDateIs(n, y, 0, 0);
    AddDateIs(n, 0, 12 * y, 0);
  }

  /** Shifting by more always lands later, whatever the period. */
  lemma ShiftStrict(n: int, a: int, b: int, p: string)
    requires a < b && IsPeriod(p)
    ensures Shift(n, a, p).Ok? && Shift(n, b, p).Ok? && Shift(n, a, p).value < Shift(n, b, p).value
  {
    if p == "D" {
      DaysStrict(n, a, b);
    } else if p == "M" {
      MonthsStrict(n, a, b);
    } else {
      YearsAsMonths(n, a);
      YearsAsMonths(n, b);
      MonthsStrict(n, 12 * a, 12 * b);
    }
  }

  lemma ShiftOrderIff(n: int, a: int, b: int, p: string)
    requires IsPeriod(p)
    ensures Shift(n, a, p).Ok? && Shift(n, b, p).Ok?
    ensures Shift(n, a, p).value < Shift(n, b, p).value <==> a < b
  {
    if a < b {
      ShiftStrict(n, a, b, p);
    } else if b < a {
      ShiftStrict(n, b, a, p);
    }
  }

  lemma MidnightStrict(a: int, b: int)
    ensures Midnight(a) < Midnight(b) <==> a < b
  {
  }

  lemma AddOrderIff(base: Instant, a: int, b: int, p: string)
    requires 0 <= a && 0 <= b && IsPeriod(p)
    ensures AddDuration(base, a, p).Ok? && AddDuration(base, b, p).Ok?
    ensures AddDuration(base, a, p).value < AddDuration(base, b, p).value <==> a < b
  {
    var n := DayOf(base);
    ShiftOrderIff(n, a, b, p);
    MidnightStrict(Shift(n, a, p).value, Shift(n, b, p).value);
  }

  lemma Subtracted(base: Instant, a: int, p: string)
    requires 0 <= a && IsPeriod(p)
    ensures Shift(DayOf(base), -a, p).Ok?
    ensures SubtractDuration(base, a, p) == Ok(Midnight(Shift(DayOf(base), -a, p).value))
  {
  }

  lemma SubtractOrderIff(base: Instant, a: int, b: int, p: string)
    requires 0 <= a && 0 <= b && IsPeriod(p)
    ensures SubtractDuration(base, a, p).Ok? && SubtractDuration(base, b, p).Ok?
    ensures SubtractDuration(base, b, p).value < SubtractDuration(base, a, p).value <==> a < b
  {
    var n := DayOf(base);
    Subtracted(base, a, p);
    Subtracted(base, b, p);
    ShiftOrderIff(n, -b, -a, p);
    MidnightStrict(Shift(n, -b, p).value, Shift(n, -a, p).value);
  }

  /** AddDuration grows, and SubtractDuration shrinks, strictly with the amount. */
  lemma AmountOrderIff(base: Instant, a: int, b: int, p: string)
    requires 0 <= a && 0 <= b && IsPeriod(p)
    ensures AddDuration(base, a, p).Ok? && AddDuration(base, b, p).Ok?
    ensures SubtractDuration(base, a, p).Ok? && SubtractDuration(base, b, p).Ok?
    ensures AddDuration(base, a, p).value < AddDuration(base, b, p).value <==> a < b
    ensures SubtractDuration(base, b, p).value < SubtractDuration(base, a, p).value <==> a < b
  {
    AddOrderIff(base, a, b, p);
    SubtractOrderIff(base, a, b, p);
  }

  lemma ShiftYears(n: int, y: int)
    ensures Shift(n, y, "Y") == Shift(n, 12 * y, "M")
  {
    YearsAsMonths(n, y);
  }

  /** n years are 12n months, in both directions. */
  lemma YearsAreMonths(base: Instant, n: int)
    requires 0 <= n
    ensures AddDuration(base, n, "Y") == AddDuration(base, 12 * n, "M")
    ensures SubtractDuration(base, n, "Y") == SubtractDuration(base, 12 * n, "M")
  {
    ShiftYears(DayOf(base), n);
    ShiftYears(DayOf(base), -n);
    assert -(12 * n) == 12 * -n;
  }

  /**
   Adding months lands on the same day of the target month, and overflows into the first
   three days of the next month exactly when the target month is too short for that day.
   */
  lemma MonthAdditionLands(n: int, k: int)
    ensures var target := MonthOf(n) + k;
            var r := AddDate(n, 0, k, 0);
            var day := CivilOf(n).day;
            && (MonthOf(r) == target <==> day <= MonthLength(target))
            && (MonthOf(r) == target ==> CivilOf(r).day == day)
            && (MonthOf(r) != target ==> MonthOf(r) == target + 1 && CivilOf(r).day == day - MonthLength(target)
                                         && CivilOf(r).day <= 3)
  {
    var i := MonthOf(n);
    var target := i + k;
    AddDateIs(n, 0, k, 0);
    MonthStartNext(i);
    MonthStartNext(target);
    MonthStartNext(target + 1);
    var r := AddDate(n, 0, k, 0);
    MonthOfIs(r, if CivilOf(n).day <= MonthLength(target) then target else target + 1);
  }

  lemma PlaceInMonth(n: int)
    ensures var i := MonthOf(n); 0 <= n - MonthStart(i) < MonthLength(i)
  {
  }

  /** Adding months keeps the position in the month. */
  lemma MonthShift(n: int, k: int)
    ensures var at := CivilOf(n).day - 1;
            AddDate(n, 0, k, 0) == MonthStart(MonthOf(n) + k) + at && 0 <= at < 31 && n == MonthStart(MonthOf(n)) + at
  {
    AddDateIs(n, 0, k, 0);
    PlaceInMonth(n);
  }

  lemma PlacesOrdered(i: int, j: int, k: int, p: int, q: int)
    requires i <= j && 0 <= p < 31 && 0 <= q < 31 && (i == j ==> p <= q)
    ensures MonthStart(i + k) + p <= MonthStart(j + k) + q <==> !(j == i + 1 && p > MonthLength(i + k) + q)
  {
    if j == i + 1 {
      MonthStartNext(i + k);
    } else if j > i + 1 {
      LaterMonth(i + k, j + k, 2);
    }
  }

  /**
   Month addition keeps the order of two base dates except in one situation: the later one is
   in the month after, and the earlier one overflows past it because its day is too large for
   its target month.
   */
  lemma BaseOrderKeptIff(n1: int, n2: int, k: int)
    requires n1 <= n2
    ensures AddDate(n1, 0, k, 0) <= AddDate(n2, 0, k, 0) <==>
            !(MonthOf(n2) == MonthOf(n1) + 1 && CivilOf(n1).day > MonthLength(MonthOf(n1) + k) + CivilOf(n2).day)
  {
    MonthShift(n1, k);
    MonthShift(n2, k);
    MonthOrder(n1, n2);
    PlacesOrdered(MonthOf(n1), MonthOf(n2), k, CivilOf(n1).day - 1, CivilOf(n2).day - 1);
  }

  /** So it never reorders them by more than two days. */
  lemma BaseOrderAlmostKept(n1: int, n2: int, k: int)
    requires n1 <= n2
    ensures AddDate(n1, 0, k, 0) <= AddDate(n2, 0, k, 0) + 2
  {
    BaseOrderKeptIff(n1, n2, k);
    MonthShift(n1, k);
    MonthShift(n2, k);
    MonthStartNext(MonthOf(n1) + k);
  }

  lemma LaterMonth(i: int, j: int, m: int)
    requires i + m <= j && 0 <= m
    ensures MonthStart(i) + 28 * m <= MonthStart(j)
  {
    MonthStartSpread(i, j);
    assert 28 * m <= 28 * (j - i);
  }

  lemma MonthOrder(n1: int, n2: int)
    requires n1 <= n2
    ensures MonthOf(n1) <= MonthOf(n2)
  {
    var i, j := MonthOf(n1), MonthOf(n2);
    if j < i { MonthStartSpread(j + 1, i); }
  }

  lemma AddMonthInDate(c: Civil)
    requires ValidCivil(c)
    ensures AddDate(DateDay(c), 0, 1, 0) == DateDay(c.(month := c.month + 1))
  {
    var n := DateDay(c);
    assert CivilOf(n) == c by { CivilRoundTrip(0, c); }
    assert c.(month := c.month + 1) == Civil(c.year + 0, c.month + 1, c.day + 0);
  }

  /** 31 January + 1M is later than 1 February + 1M in a year without a leap day. */
  lemma BaseOrderBroken(y: int)
    requires !IsLeap(y)
    ensures var jan31, feb1 := DateDay(Civil(y, 1, 31)), DateDay(Civil(y, 2, 1));
            && jan31 < feb1
            && AddDate(jan31, 0, 1, 0) == DateDay(Civil(y, 3, 3))
            && AddDate(feb1, 0, 1, 0) == DateDay(Civil(y, 3, 1))
            && AddDate(jan31, 0, 1, 0) > AddDate(feb1, 0, 1, 0)
  {
    FirstOfFebruary(y);
    EarlyMarch(y);
    ValidInJanuary(y);
    AddMonthInDate(Civil(y, 1, 31));
    AddMonthInDate(Civil(y, 2, 1));
  }

  lemma ValidInJanuary(y: int)
    ensures ValidCivil(Civil(y, 1, 31)) && ValidCivil(Civil(y, 2, 1))
  {
    MonthLengthsOf(y, 0);
    MonthLengthsOf(y, 1);
  }

  /** The day after the last of a month is the first of the next. */
  lemma MonthTurns(y: int, m: int, last: int, d: int)
    requires last == MonthLength(12 * y + m - 1)
    ensures DateDay(Civil(y, m + 1, d)) == DateDay(Civil(y, m, last + d))
  {
    MonthStartNext(12 * y + m - 1);
    assert 12 * y + (m + 1) - 1 == 12 * y + m - 1 + 1;
  }

  lemma FirstOfFebruary(y: int)
    ensures DateDay(Civil(y, 2, 1)) == DateDay(Civil(y, 1, 31)) + 1
  {
    MonthLengthsOf(y, 0);
    MonthTurns(y, 1, 31, 1);
    DaysInMonth(y, 1, 31, 32);
  }

  lemma DaysInMonth(y: int, m: int, d1: int, d2: int)
    ensures DateDay(Civil(y, m, d2)) - DateDay(Civil(y, m, d1)) == d2 - d1
  {
  }

  lemma EarlyMarch(y: int)
    requires !IsLeap(y)
    ensures DateDay(Civil(y, 3, 3)) == DateDay(Civil(y, 2, 31)) && DateDay(Civil(y, 3, 1)) == DateDay(Civil(y, 3, 3)) - 2
  {
    MonthLengthsOf(y, 1);
    MonthTurns(y, 2, 28, 3);
    DaysInMonth(y, 3, 1, 3);
  }
}
