/** UTC calendar dates: the day count behind Go's AddDate and After, and the
    completed-years field of the SQL age function. */
module Calendar {
  import opened Common

  datatype Date = Date(year: int, month: int, day: int)

  predicate IsLeap(y: int) {
    y % 4 == 0 && (y % 100 != 0 || y % 400 == 0)
  }

  function DaysInMonth(y: int, m: int): int
    requires 1 <= m <= 12
  {
    if m == 2 then (if IsLeap(y) then 29 else 28)
    else if m == 4 || m == 6 || m == 9 || m == 11 then 30
    else 31
  }

  predicate Valid(d: Date) {
    1 <= d.month <= 12 && 1 <= d.day <= DaysInMonth(d.year, d.month)
  }

  predicate Before(a: Date, b: Date) {
    a.year < b.year
    || (a.year == b.year && a.month < b.month)
    || (a.year == b.year && a.month == b.month && a.day < b.day)
  }

  /** Days from 1 January of year 0 to 1 January of year y. */
  function DaysBeforeYear(y: int): int {
    365 * y + (y + 3) / 4 - (y + 99) / 100 + (y + 399) / 400
  }

  function DaysBeforeMonth(y: int, m: int): int
    requires 1 <= m <= 12
    decreases m
  {
    if m == 1 then 0 else DaysBeforeMonth(y, m - 1) + DaysInMonth(y, m - 1)
  }

  /** Day count of year y, month m, day d; d may lie outside the month. */
  function DayCount(y: int, m: int, d: int): int
    requires 1 <= m <= 12
  {
    DaysBeforeYear(y) + DaysBeforeMonth(y, m) + d - 1
  }

  function DayNumber(d: Date): int
    requires Valid(d)
  {
    DayCount(d.year, d.month, d.day)
  }

  /** The length of every month, month by month. */
  lemma MonthLengths(d: Date)
    ensures Valid(d) <==>
              && 1 <= d.month <= 12
              && var leap := d.year % 400 == 0 || (d.year % 4 == 0 && d.year % 100 != 0);
                 1 <= d.day <= [31, if leap then 29 else 28, 31, 30, 31, 30, 31, 31, 30, 31, 30, 31][d.month - 1]
  {
    CenturiesAreFourthYears(d.year);
  }

  lemma FourthYear(y: int)
    ensures (y + 4) / 4 == (y + 3) / 4 + (if y % 4 == 0 then 1 else 0)
  {
  }

  lemma HundredthYear(y: int)
    ensures (y + 100) / 100 == (y + 99) / 100 + (if y % 100 == 0 then 1 else 0)
  {
  }

  lemma FourHundredthYear(y: int)
    ensures (y + 400) / 400 == (y + 399) / 400 + (if y % 400 == 0 then 1 else 0)
  {
  }

  lemma CenturiesAreFourthYears(y: int)
    ensures y % 400 == 0 ==> y % 100 == 0
    ensures y % 100 == 0 ==> y % 4 == 0
  {
    var q, c := y / 400, y / 100;
    assert y == 400 * q + y % 400 && y == 100 * c + y % 100;
    if y % 400 == 0 {
      assert y == 100 * (4 * q);
    }
    if y % 100 == 0 {
      assert y == 4 * (25 * c);
    }
  }

  lemma YearLength(y: int)
    ensures DaysBeforeYear(y + 1) == DaysBeforeYear(y) + 365 + (if IsLeap(y) then 1 else 0)
  {
    FourthYear(y);
    HundredthYear(y);
    FourHundredthYear(y);
    CenturiesAreFourthYears(y);
  }

  lemma {:induction false} YearsMonotone(y: int, z: int)
    requires y < z
    ensures DaysBeforeYear(y + 1) <= DaysBeforeYear(z)
    decreases z - y
  {
    if y + 1 < z {
      YearLength(y + 1);
      YearsMonotone(y + 1, z);
    }
  }

  lemma {:induction false} MonthsMonotone(y: int, m: int, k: int)
    requires 1 <= m < k <= 12
    ensures DaysBeforeMonth(y, m) + DaysInMonth(y, m) <= DaysBeforeMonth(y, k)
    decreases k - m
  {
    if m + 1 < k {
      MonthsMonotone(y, m + 1, k);
    }
  }

  lemma YearEnd(y: int)
    ensures DaysBeforeMonth(y, 12) == 334 + (if IsLeap(y) then 1 else 0)
  {
  }

  lemma DayInsideYear(d: Date)
    requires Valid(d)
    ensures DaysBeforeYear(d.year) <= DayNumber(d) < DaysBeforeYear(d.year + 1)
  {
    YearLength(d.year);
    YearEnd(d.year);
    if d.month > 1 {
      MonthsMonotone(d.year, 1, d.month);
    }
    if d.month < 12 {
      MonthsMonotone(d.year, d.month, 12);
    }
  }

  lemma EarlierHasSmallerDay(a: Date, b: Date)
    requires Valid(a) && Valid(b) && Before(a, b)
    ensures DayNumber(a) < DayNumber(b)
  {
    if a.year < b.year {
      DayInsideYear(a);
      DayInsideYear(b);
      YearsMonotone(a.year, b.year);
    } else if a.month < b.month {
      MonthsMonotone(a.year, a.month, b.month);
    }
  }

  /** Day counts order valid dates exactly as the calendar does. */
  lemma DayOrder(a: Date, b: Date)
    requires Valid(a) && Valid(b)
    ensures DayNumber(a) < DayNumber(b) <==> Before(a, b)
  {
    if Before(a, b) {
      EarlierHasSmallerDay(a, b);
    } else if a != b {
      EarlierHasSmallerDay(b, a);
    }
  }

  /** Day count of b.AddDate(years, 0, 0): the day is not clamped, it runs over. */
  function AddYears(b: Date, years: int): int
    requires Valid(b)
  {
    DayCount(b.year + years, b.month, b.day)
  }

  /** The date Go shows for that day: 29 February moves to 1 March of a common year. */
  function AnniversaryDate(b: Date, years: int): Date
    requires Valid(b)
  {
    if b.month == 2 && b.day == 29 && !IsLeap(b.year + years)
    then Date(b.year + years, 3, 1)
    else Date(b.year + years, b.month, b.day)
  }

  lemma AnniversaryIsNormalised(b: Date, years: int)
    requires Valid(b)
    ensures Valid(AnniversaryDate(b, years))
    ensures DayNumber(AnniversaryDate(b, years)) == AddYears(b, years)
  {
  }

  /** Field-wise subtraction of the SQL age function, borrowing a month when
      the days are negative and a year when the months are. */
  function CompletedYears(from: Date, to: Date): int {
    var months := to.month - from.month;
    var borrowed := if to.day - from.day < 0 then months - 1 else months;
    if borrowed < 0 then to.year - from.year - 1 else to.year - from.year
  }

  /** EXTRACT(YEAR FROM age(today, birthday)); a future birthday gives a negated age. */
  function AgeYears(today: Date, birthday: Date): int {
    if Before(today, birthday) then -CompletedYears(today, birthday)
    else CompletedYears(birthday, today)
  }

  /** The n-th anniversary as Go computes it has come exactly when SQL counts n years. */
  lemma AnniversaryMatchesAge(birthday: Date, today: Date, n: nat)
    requires Valid(birthday) && Valid(today) && !Before(today, birthday)
    ensures AddYears(birthday, n) <= DayNumber(today) <==> AgeYears(today, birthday) >= n
  {
    AnniversaryIsNormalised(birthday, n);
    DayOrder(today, AnniversaryDate(birthday, n));
  }

  /** The n-th birthday has come by month and day; who was born on 29 February waits for 1 March
      in a common year. */
  predicate HasTurned(birthday: Date, today: Date, n: int) {
    || today.year - birthday.year > n
    || (today.year - birthday.year == n
        && (today.month > birthday.month || (today.month == birthday.month && today.day >= birthday.day)))
  }

  /** The SQL age counts the birthdays that have come. */
  lemma AgeCountsBirthdays(birthday: Date, today: Date, n: nat)
    requires Valid(birthday) && Valid(today) && !Before(today, birthday)
    ensures AgeYears(today, birthday) >= n <==> HasTurned(birthday, today, n)
  {
  }

  /** Before the birthday it is the negated age that will count from today to then. */
  lemma FutureBirthdays(birthday: Date, today: Date, n: nat)
    requires Valid(birthday) && Valid(today) && Before(today, birthday)
    ensures AgeYears(today, birthday) <= 0
    ensures AgeYears(today, birthday) + n <= 0 <==> HasTurned(today, birthday, n)
  {
  }

  datatype ProfileError = InvalidBirthday | OwnerMustBeAdult

  const ADULT_AGE := 18

  /** The two birthday checks of buildProfile; birthday is None when it does not parse. */
  function CheckBirthday(birthday: Option<Date>, now: Date): Result<Date, ProfileError>
    requires Valid(now)
    requires birthday.Some? ==> Valid(birthday.value)
  {
    if birthday.None? || DayNumber(now) < DayNumber(birthday.value) then Failure(InvalidBirthday)
    else if DayNumber(now) < AddYears(birthday.value, ADULT_AGE) then Failure(OwnerMustBeAdult)
    else Success(birthday.value)
  }

  lemma AgeNeverDecreases(birthday: Date, now: Date, later: Date, n: nat)
    requires Valid(birthday) && Valid(now) && Valid(later)
    requires !Before(now, birthday) && !Before(later, now)
    requires AgeYears(now, birthday) >= n
    ensures !Before(later, birthday) && AgeYears(later, birthday) >= n
  {
  }

  /** Acceptance at sign-up is exactly "SQL age is at least 18", and it lasts. */
  lemma AcceptedProfileIsAdult(birthday: Date, now: Date)
    requires Valid(birthday) && Valid(now)
    ensures CheckBirthday(Some(birthday), now) == Success(birthday) <==>
            !Before(now, birthday) && AgeYears(now, birthday) >= 18
    ensures CheckBirthday(Some(birthday), now) == Failure(OwnerMustBeAdult) <==>
            !Before(now, birthday) && AgeYears(now, birthday) < 18
    ensures CheckBirthday(Some(birthday), now).Success? <==> HasTurned(birthday, now, 18)
    ensures CheckBirthday(None, now) == Failure(InvalidBirthday)
    ensures Before(now, birthday) ==> CheckBirthday(Some(birthday), now) == Failure(InvalidBirthday)
    ensures CheckBirthday(Some(birthday), now).Success? ==>
            forall later :: Valid(later) && !Before(later, now) ==> AgeYears(later, birthday) >= 18
  {
    DayOrder(now, birthday);
    if !Before(now, birthday) {
      AnniversaryMatchesAge(birthday, now, ADULT_AGE);
      AgeCountsBirthdays(birthday, now, 18);
    }
    if CheckBirthday(Some(birthday), now).Success? {
      forall later | Valid(later) && !Before(later, now)
        ensures AgeYears(later, birthday) >= ADULT_AGE
      {
        AgeNeverDecreases(birthday, now, later, ADULT_AGE);
      }
    }
  }
}
