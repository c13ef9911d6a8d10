/** Dates without a date library (apps/report-endpoint/src/lib.rs, `date_of`). */
module Calendar {
  datatype Date = Date(year: int, month: int, day: int)

  // ---- The code's arithmetic ----

  /** Years run from March, so that the leap day comes last. */
  datatype MarchDay = MarchDay(year: int, doy: int)

  function YearOfEra(doe: int): int {
    (doe - doe / 1460 + doe / 36524 - doe / 146096) / 365
  }

  function DayOfYear(doe: int, yoe: int): int {
    doe - (365 * yoe + yoe / 4 - yoe / 100)
  }

  function MarchOf(z: int): MarchDay {
    var era, doe := z / 146097, z % 146097;
    var yoe := YearOfEra(doe);
    MarchDay(yoe + era * 400, DayOfYear(doe, yoe))
  }

  function FromMarch(t: MarchDay): Date {
    var mp := (5 * t.doy + 2) / 153;
    var d := t.doy - (153 * mp + 2) / 5 + 1;
    var m := if mp < 10 then mp + 3 else mp - 9;
    Date(t.year + (if m <= 2 then 1 else 0), m, d)
  }

  /** Civil-from-days: the date so many days after 1970-01-01. */
  function Civil(days: nat): Date {
    FromMarch(MarchOf(days + 719468))
  }

  // ---- The Gregorian calendar ----

  predicate Leap(year: int) {
    year % 4 == 0 && (year % 100 != 0 || year % 400 == 0)
  }

  function DaysIn(year: int, month: int): int {
    if month == 2 then if Leap(year) then 29 else 28
    else if month == 4 || month == 6 || month == 9 || month == 11 then 30
    else 31
  }

  predicate Valid(t: Date) {
    1 <= t.month <= 12 && 1 <= t.day <= DaysIn(t.year, t.month)
  }

  function NextDay(t: Date): Date {
    if t.day < DaysIn(t.year, t.month) then t.(day := t.day + 1)
    else if t.month < 12 then Date(t.year, t.month + 1, 1)
    else Date(t.year + 1, 1, 1)
  }

  // ---- Days of an era of 400 years ----

  /** A day of an era by its century, its four-year cycle, its year and its day in the year. */
  datatype EraDay = EraDay(c: int, q: int, k: int, u: int)
  {
    predicate LeapYear() {
      k == 3 && (q != 24 || c == 3)
    }

    predicate Valid() {
      0 <= c <= 3 && 0 <= q <= 24 && 0 <= k <= 3 && 0 <= u < (if LeapYear() then 366 else 365)
    }

    function Number(): int {
      36524 * c + 1461 * q + 365 * k + u
    }

    function Year(): int {
      100 * c + 4 * q + k
    }
  }

  function Split(doe: int): EraDay {
    var c := if doe / 36524 < 3 then doe / 36524 else 3;
    var r := doe - 36524 * c;
    var q := if r / 1461 < 24 then r / 1461 else 24;
    var t := r - 1461 * q;
    var k := if t / 365 < 3 then t / 365 else 3;
    EraDay(c, q, k, t - 365 * k)
  }

  lemma SplitValid(doe: int)
    requires 0 <= doe < 146097
    ensures Split(doe).Valid() && Split(doe).Number() == doe
  {
  }

  lemma CyclesOf(t: EraDay)
    requires t.Valid()
    ensures t.Number() < 146097
    ensures t.Number() / 36524 == if t == EraDay(3, 24, 3, 365) then 4 else t.c
    ensures t.Number() / 146096 == if t == EraDay(3, 24, 3, 365) then 1 else 0
    ensures t.Number() / 1460 == 25 * t.c + t.q + (if 24 * t.c + t.q + 365 * t.k + t.u >= 1460 then 1 else 0)
  {
  }

  lemma YearOfSplit(t: EraDay)
    requires t.Valid()
    ensures YearOfEra(t.Number()) == t.Year() && DayOfYear(t.Number(), t.Year()) == t.u
  {
    CyclesOf(t);
    assert t.Year() / 4 == 25 * t.c + t.q;
    assert t.Year() / 100 == t.c;
  }

  // ---- One day later ----

  function Length(year: int): int {
    if Leap(year + 1) then 366 else 365
  }

  function NextMarch(t: MarchDay): MarchDay {
    if t.doy + 1 < Length(t.year) then t.(doy := t.doy + 1) else MarchDay(t.year + 1, 0)
  }

  function NextInEra(t: EraDay): EraDay {
    if t.u + 1 < (if t.LeapYear() then 366 else 365) then t.(u := t.u + 1)
    else if t.k < 3 then EraDay(t.c, t.q, t.k + 1, 0)
    else if t.q < 24 then EraDay(t.c, t.q + 1, 0, 0)
    else EraDay(t.c + 1, 0, 0, 0)
  }

  lemma NextNumber(t: EraDay)
    requires t.Valid()
    ensures if t == EraDay(3, 24, 3, 365) then t.Number() == 146096
            else NextInEra(t).Valid() && NextInEra(t).Number() == t.Number() + 1
  {
  }

  lemma LeapPeriod(year: int, era: int)
    ensures Leap(year + 400 * era) <==> Leap(year)
  {
    Remainder4(year, 100 * era);
    Remainder100(year, 4 * era);
    Remainder400(year, era);
  }

  lemma Remainder4(n: int, k: int)
    ensures (n + 4 * k) % 4 == n % 4
  {
  }

  lemma Remainder100(n: int, k: int)
    ensures (n + 100 * k) % 100 == n % 100
  {
  }

  lemma Remainder400(n: int, k: int)
    ensures (n + 400 * k) % 400 == n % 400
  {
  }

  lemma LeapFirstEra(t: EraDay)
    requires t.Valid()
    ensures Leap(t.Year() + 1) <==> t.LeapYear()
  {
  }

  lemma LeapInEra(t: EraDay, era: int)
    requires t.Valid()
    ensures Leap(t.Year() + 400 * era + 1) <==> t.LeapYear()
  {
    LeapPeriod(t.Year() + 1, era);
    LeapFirstEra(t);
  }

  lemma MarchOfSplit(era: int, t: EraDay)
    requires t.Valid()
    ensures MarchOf(146097 * era + t.Number()) == MarchDay(t.Year() + era * 400, t.u)
  {
    hide EraDay.Year, EraDay.Number, EraDay.Valid, YearOfEra, DayOfYear;
    NumberInEra(t);
    EraOf(era, t.Number());
    YearOfSplit(t);
  }

  lemma NumberInEra(t: EraDay)
    requires t.Valid()
    ensures 0 <= t.Number() < 146097
  {
  }

  lemma EraOf(era: int, doe: int)
    requires 0 <= doe < 146097
    ensures (146097 * era + doe) / 146097 == era && (146097 * era + doe) % 146097 == doe
  {
  }

  lemma MarchNext(z: int)
    ensures MarchOf(z + 1) == NextMarch(MarchOf(z)) && 0 <= MarchOf(z).doy < Length(MarchOf(z).year)
  {
    hide Split, MarchOf, Length, NextMarch, EraDay.Number;
    SplitValid(z % 146097);
    MarchNextAt(z / 146097, Split(z % 146097));
  }

  lemma MarchNextAt(era: int, t: EraDay)
    requires t.Valid()
    ensures var z := 146097 * era + t.Number();
            MarchOf(z + 1) == NextMarch(MarchOf(z)) && 0 <= MarchOf(z).doy < Length(MarchOf(z).year)
  {
    hide MarchOf, Leap, NextInEra, EraDay.Year, EraDay.Number, EraDay.Valid, EraDay.LeapYear;
    YearDay(t);
    MarchOfSplit(era, t);
    LeapInEra(t, era);
    NextNumber(t);
    YearNext(t);
    if t == EraDay(3, 24, 3, 365) {
      FirstYear(EraDay(0, 0, 0, 0));
      LastYear(t);
      MarchOfSplit(era + 1, EraDay(0, 0, 0, 0));
    } else {
      MarchOfSplit(era, NextInEra(t));
    }
  }

  lemma FirstYear(t: EraDay)
    requires t.c == t.q == t.k == t.u == 0
    ensures t.Valid() && t.Year() == 0 && t.Number() == 0
  {
  }

  lemma LastYear(t: EraDay)
    requires t.c == t.k == 3 && t.q == 24
    ensures t.LeapYear() && t.Year() == 399
  {
  }

  lemma YearDay(t: EraDay)
    requires t.Valid()
    ensures 0 <= t.u < (if t.LeapYear() then 366 else 365)
  {
  }

  lemma YearNext(t: EraDay)
    requires t.Valid()
    ensures NextInEra(t).Year() == if t.u + 1 < (if t.LeapYear() then 366 else 365) then t.Year() else t.Year() + 1
    ensures NextInEra(t).u == if t.u + 1 < (if t.LeapYear() then 366 else 365) then t.u + 1 else 0
  {
  }

  /** The day of the year on which each month begins, counting from March. */
  function MonthStart(mp: int): int {
    if mp == 0 then 0 else if mp == 1 then 31 else if mp == 2 then 61 else if mp == 3 then 92
    else if mp == 4 then 122 else if mp == 5 then 153 else if mp == 6 then 184 else if mp == 7 then 214
    else if mp == 8 then 245 else if mp == 9 then 275 else if mp == 10 then 306 else if mp == 11 then 337 else 366
  }

  lemma MonthOf(doy: int, mp: int)
    requires 0 <= mp <= 11 && MonthStart(mp) <= doy < MonthStart(mp + 1)
    ensures (5 * doy + 2) / 153 == mp && (153 * mp + 2) / 5 == MonthStart(mp)
  {
  }

  function FindMonth(doy: int, mp: int): (r: int)
    requires 0 <= mp <= 11 && MonthStart(mp) <= doy < 366
    ensures mp <= r <= 11 && MonthStart(r) <= doy < MonthStart(r + 1)
    decreases 11 - mp
  {
    if doy < MonthStart(mp + 1) then mp else FindMonth(doy, mp + 1)
  }

  lemma FromMarchAt(t: MarchDay, mp: int)
    requires 0 <= mp <= 11 && MonthStart(mp) <= t.doy < MonthStart(mp + 1)
    ensures FromMarch(t) == Date(t.year + (if mp >= 10 then 1 else 0), if mp < 10 then mp + 3 else mp - 9, t.doy - MonthStart(mp) + 1)
  {
    MonthOf(t.doy, mp);
  }

  lemma MonthLength(t: MarchDay, mp: int)
    requires 0 <= mp <= 11
    ensures DaysIn(t.year + (if mp >= 10 then 1 else 0), if mp < 10 then mp + 3 else mp - 9)
         == (if mp == 11 then Length(t.year) else MonthStart(mp + 1)) - MonthStart(mp)
  {
  }

  lemma FromMarchNext(t: MarchDay)
    requires 0 <= t.doy < Length(t.year)
    ensures Valid(FromMarch(t)) && FromMarch(NextMarch(t)) == NextDay(FromMarch(t))
  {
    hide FromMarch, Leap, DaysIn;
    var mp := FindMonth(t.doy, 0);
    FromMarchAt(t, mp);
    MonthLength(t, mp);
    var next := NextMarch(t);
    if next.doy == 0 {
      FromMarchAt(next, 0);
    } else if next.doy < MonthStart(mp + 1) {
      FromMarchAt(next, mp);
    } else {
      FromMarchAt(next, mp + 1);
    }
  }

  /** Every day has a real date, and the day after has the next date. */
  lemma CivilNext(days: nat)
    ensures Valid(Civil(days)) && Civil(days + 1) == NextDay(Civil(days))
  {
    hide MarchOf, FromMarch;
    MarchNext(days + 719468);
    FromMarchNext(MarchOf(days + 719468));
  }

  lemma CivilEpoch()
    ensures Civil(0) == Date(1970, 1, 1)
  {
    hide MarchOf, FromMarch;
    MarchOfSplit(4, EraDay(3, 17, 1, 306));
    FromMarchAt(MarchDay(1969, 306), 10);
  }

  // ---- Days counted from the epoch ----

  function YearLength(year: int): int {
    if Leap(year) then 366 else 365
  }

  function DaysBeforeYear(year: int): nat
    requires year >= 1970
  {
    if year == 1970 then 0 else DaysBeforeYear(year - 1) + YearLength(year - 1)
  }

  function DaysBeforeMonth(year: int, month: int): nat
    requires 1 <= month <= 12
  {
    if month == 1 then 0 else DaysBeforeMonth(year, month - 1) + DaysIn(year, month - 1)
  }

  /** The number of days from 1970-01-01, counted year by year and month by month. */
  function Count(t: Date): int
    requires Valid(t) && t.year >= 1970
  {
    DaysBeforeYear(t.year) + DaysBeforeMonth(t.year, t.month) + t.day - 1
  }

  lemma DaysInYear(year: int)
    ensures DaysBeforeMonth(year, 12) + DaysIn(year, 12) == YearLength(year)
  {
    hide Leap;
    assert DaysBeforeMonth(year, 2) == 31;
    assert DaysBeforeMonth(year, 3) == 31 + DaysIn(year, 2);
    assert DaysBeforeMonth(year, 4) == DaysBeforeMonth(year, 3) + 31;
    assert DaysBeforeMonth(year, 6) == DaysBeforeMonth(year, 4) + 61;
    assert DaysBeforeMonth(year, 8) == DaysBeforeMonth(year, 6) + 61;
    assert DaysBeforeMonth(year, 10) == DaysBeforeMonth(year, 8) + 61;
    assert DaysBeforeMonth(year, 12) == DaysBeforeMonth(year, 10) + 61;
  }

  lemma CountNext(t: Date)
    requires Valid(t) && t.year >= 1970
    ensures Valid(NextDay(t)) && NextDay(t).year >= 1970 && Count(NextDay(t)) == Count(t) + 1
  {
    hide Leap;
    if t.day == DaysIn(t.year, t.month) && t.month == 12 {
      DaysInYear(t.year);
    }
  }

  /** `date_of` turns a day number into the date that counting gives that number. */
  lemma {:induction false} CountCivil(days: nat)
    ensures Valid(Civil(days)) && Civil(days).year >= 1970 && Count(Civil(days)) == days
  {
    hide Civil, Count;
    if days == 0 {
      CivilEpoch();
      CountEpoch();
    } else {
      CountCivil(days - 1);
      CivilNext(days - 1);
      CountNext(Civil(days - 1));
    }
  }

  lemma CountEpoch()
    ensures Count(Date(1970, 1, 1)) == 0
  {
  }

  function DayBefore(t: Date): Date {
    if t.day > 1 then t.(day := t.day - 1)
    else if t.month > 1 then Date(t.year, t.month - 1, DaysIn(t.year, t.month - 1))
    else Date(t.year - 1, 12, 31)
  }

  lemma {:induction false} CountedDates(t: Date, days: nat)
    requires Valid(t) && t.year >= 1970 && Count(t) == days
    ensures Civil(days) == t
    decreases days
  {
    hide Civil, Leap;
    if t == Date(1970, 1, 1) {
      CivilEpoch();
    } else {
      var before := DayBefore(t);
      assert Valid(before) && before.year >= 1970 && NextDay(before) == t;
      hide Count;
      CountNext(before);
      CountIsNat(before);
      CountedDates(before, Count(before));
      CivilNext(Count(before));
    }
  }

  lemma CountIsNat(t: Date)
    requires Valid(t) && t.year >= 1970
    ensures Count(t) >= 0
  {
  }

  /** Day numbers and real dates from 1970 on correspond one to one. */
  lemma CivilExactly(t: Date, days: nat)
    requires Valid(t) && t.year >= 1970
    ensures Civil(days) == t <==> Count(t) == days
  {
    hide Civil, Count;
    CountCivil(days);
    if Count(t) == days {
      CountedDates(t, days);
    }
  }

  predicate Earlier(a: Date, b: Date) {
    a.year < b.year || (a.year == b.year && (a.month < b.month || (a.month == b.month && a.day < b.day)))
  }

  lemma NextIsLater(t: Date)
    requires Valid(t)
    ensures Earlier(t, NextDay(t))
  {
  }

  /** Later days have later dates. */
  lemma {:induction false} CivilOrdered(a: nat, b: nat)
    requires a < b
    ensures Earlier(Civil(a), Civil(b))
    decreases b
  {
    hide Civil, NextDay;
    CivilNext(b - 1);
    NextIsLater(Civil(b - 1));
    if a < b - 1 {
      CivilOrdered(a, b - 1);
    }
  }

  // ---- The folder's name ----

  function Numeral(d: int): char {
    if 0 <= d <= 9 then "0123456789"[d] else '?'
  }

  /** A number, padded with zeros to at least `width` digits. */
  function Padded(n: nat, width: nat): string
    decreases n, width
  {
    if n == 0 && width == 0 then ""
    else Padded(n / 10, if width == 0 then 0 else width - 1) + [Numeral(n % 10)]
  }

  /** `date_of`: the name of the folder a report is kept in. */
  function DateOf(days: nat): string {
    CountCivil(days);
    var t := Civil(days);
    Padded(t.year, 4) + "-" + Padded(t.month, 2) + "-" + Padded(t.day, 2)
  }

  function Reading(s: string): nat {
    if s == "" then 0
    else 10 * Reading(s[..|s| - 1]) + (if '0' <= s[|s| - 1] <= '9' then (s[|s| - 1] - '0') as nat else 0)
  }

  lemma {:induction false} ReadingPadded(n: nat, width: nat)
    ensures Reading(Padded(n, width)) == n
    decreases n, width
  {
    if n > 0 || width > 0 {
      var w := if width == 0 then 0 else width - 1;
      ReadingPadded(n / 10, w);
      var s := Padded(n, width);
      assert s[..|s| - 1] == Padded(n / 10, w);
      NumeralValue(n % 10);
    }
  }

  lemma NumeralValue(d: int)
    requires 0 <= d <= 9
    ensures '0' <= Numeral(d) <= '9' && (Numeral(d) - '0') as int == d
  {
  }

  lemma TwoDigits(n: nat)
    requires n < 100
    ensures |Padded(n, 2)| == 2
  {
    assert Padded(n / 10, 1) == Padded(0, 0) + [Numeral(n / 10 % 10)];
  }

  /** Reports of different days go to different folders. */
  lemma FoldersDiffer(a: nat, b: nat)
    requires DateOf(a) == DateOf(b)
    ensures a == b
  {
    hide Civil, Padded;
    CountCivil(a);
    CountCivil(b);
    var s, t := Civil(a), Civil(b);
    TwoDigits(s.month);
    TwoDigits(s.day);
    TwoDigits(t.month);
    TwoDigits(t.day);
    SameParts(Padded(s.year, 4), Padded(s.month, 2), Padded(s.day, 2), Padded(t.year, 4), Padded(t.month, 2), Padded(t.day, 2));
    ReadingPadded(s.year, 4);
    ReadingPadded(t.year, 4);
    ReadingPadded(s.month, 2);
    ReadingPadded(t.month, 2);
    ReadingPadded(s.day, 2);
    ReadingPadded(t.day, 2);
  }

  lemma SameParts(y1: string, m1: string, d1: string, y2: string, m2: string, d2: string)
    requires |m1| == |m2| == |d1| == |d2| == 2
    requires y1 + "-" + m1 + "-" + d1 == y2 + "-" + m2 + "-" + d2
    ensures y1 == y2 && m1 == m2 && d1 == d2
  {
    var s, n := y1 + "-" + m1 + "-" + d1, |y1|;
    assert |y2| == n;
    assert s[..n] == y1 && s[..n] == y2;
    assert s[n + 1..n + 3] == m1 && s[n + 1..n + 3] == m2;
    assert s[n + 4..] == d1 && s[n + 4..] == d2;
  }
}
