/** Business dates, accounting months, and the texts the services make of them. */
module Calendar {
  import opened Text

  /** An accounting month. */
  datatype Period = Period(year: nat, month: nat)

  datatype CalendarDate = CalendarDate(year: nat, month: nat, day: nat) {
    predicate Valid() {
      year < 10000 && 1 <= month <= 12 && 1 <= day <= 31
    }
  }

  /** A `date` column value; month lengths are not distinguished. */
  type Date = d: CalendarDate | d.Valid() witness CalendarDate(2026, 1, 1)

  function PeriodOf(d: Date): Period {
    Period(d.year, d.month)
  }

  /** A number that orders dates chronologically. */
  function Ordinal(d: Date): nat {
    (d.year * 12 + d.month - 1) * 31 + d.day - 1
  }

  /** `YYYY-MM-DD`. */
  function Iso(d: Date): (s: string)
    ensures |s| == 10
  {
    Fixed(d.year, 4) + "-" + Fixed(d.month, 2) + "-" + Fixed(d.day, 2)
  }

  /** The cache key `${year}-${month}`, unpadded. */
  function Key(p: Period): string {
    Decimal(p.year) + "-" + Decimal(p.month)
  }

  function Keys(periods: set<Period>): set<string> {
    set p | p in periods :: Key(p)
  }

  lemma KeyIsInjective(p: Period, q: Period)
    ensures Key(p) == Key(q) ==> p == q
  {
    if Key(p) == Key(q) {
      SplitAtSeparator(Decimal(p.year), Decimal(p.month), Decimal(q.year), Decimal(q.month), '-');
      NumberOfDecimal(p.year);
      NumberOfDecimal(q.year);
      NumberOfDecimal(p.month);
      NumberOfDecimal(q.month);
    }
  }

  lemma KeyMember(p: Period, periods: set<Period>)
    ensures Key(p) in Keys(periods) <==> p in periods
  {
    forall q | q in periods ensures Key(q) == Key(p) ==> q == p {
      KeyIsInjective(q, p);
    }
  }

  // Entry dates as text. The services slice the text, the database reads the date.

  /** An entry date: the text the services hold and the date the database stores for it. */
  datatype DatedText = DatedText(text: string, stored: Date) {
    /** Characters 0-3 and 5-6, which the services read as numbers, are digits. */
    predicate Valid() {
      |text| >= 7 && AllDigits(text[..4]) && AllDigits(text[5..7])
    }
  }

  type DateText = t: DatedText | t.Valid() witness (WitnessIsValid(); Dashed(CalendarDate(2026, 1, 1)))

  lemma WitnessIsValid()
    ensures Dashed(CalendarDate(2026, 1, 1)).Valid()
  {
    IsoSlices(CalendarDate(2026, 1, 1));
  }

  /** The year that numbers the voucher. */
  function ReadYear(t: DateText): nat {
    Number(t.text[..4])
  }

  /** The month `assertOpen` reads out of the text. */
  function ReadPeriod(t: DateText): Period {
    Period(ReadYear(t), Number(t.text[5..7]))
  }

  /** The month read is the month stored. */
  predicate ReadsRight(t: DateText) {
    ReadPeriod(t) == PeriodOf(t.stored)
  }

  function TextKey(t: DateText): string {
    Key(ReadPeriod(t))
  }

  /** `YYYY-MM-DD`, what `toIsoDate` makes. */
  function Dashed(d: Date): DatedText {
    DatedText(Iso(d), d)
  }

  /** `YYYYMMDD`. */
  function Basic(d: Date): DatedText {
    DatedText(Fixed(d.year, 4) + Fixed(d.month, 2) + Fixed(d.day, 2), d)
  }

  /** Days of the year before the first of a month. */
  function DaysBefore(month: nat, leap: bool): nat
    requires 1 <= month <= 12
  {
    [0, 31, 59, 90, 120, 151, 181, 212, 243, 273, 304, 334][month - 1] + if leap && month > 2 then 1 else 0
  }

  /** `YYYY-DDD`, with the day of the year. */
  function YearDay(d: Date, leap: bool): DatedText {
    DatedText(Fixed(d.year, 4) + "-" + Fixed(DaysBefore(d.month, leap) + d.day, 3), d)
  }

  lemma IsoSlices(d: Date)
    ensures Iso(d)[..4] == Fixed(d.year, 4)
    ensures Iso(d)[5..7] == Fixed(d.month, 2)
  {
  }

  lemma {:induction false} TwoDigits(s: string)
    requires |s| == 2 && AllDigits(s)
    ensures Number(s) == 10 * (s[0] as int - '0' as int) + (s[1] as int - '0' as int)
  {
    assert s[..1][..0] == "" && s[..1][0] == s[0];
    assert Number(s[..1]) == s[0] as int - '0' as int;
  }

  lemma YearOfFixed(d: Date)
    ensures Number(Fixed(d.year, 4)) == d.year
  {
    assert Pow10(4) == 10 * Pow10(3) == 10000;
    NumberOfFixed(d.year, 4);
  }

  /** A dashed text always reads right. */
  lemma {:induction false} DashedReadsRight(d: Date)
    ensures Dashed(d).Valid() && ReadsRight(Dashed(d)) && ReadYear(Dashed(d)) == d.year
  {
    IsoSlices(d);
    YearOfFixed(d);
    assert Pow10(2) == 100;
    NumberOfFixed(d.month, 2);
  }

  /** A basic text has the last digit of the month and the first of the day where the services
      look for the month: it reads right exactly from the 10th to the 19th of November. */
  lemma {:induction false} BasicReadsRightIff(d: Date)
    ensures Basic(d).Valid() && ReadPeriod(Basic(d)) == Period(d.year, 10 * (d.month % 10) + d.day / 10)
    ensures ReadsRight(Basic(d)) <==> d.month == 11 && 10 <= d.day <= 19
  {
    var t, m, day := Basic(d), Fixed(d.month, 2), Fixed(d.day, 2);
    assert t.text[..4] == Fixed(d.year, 4);
    assert m[1] == Digit(d.month % 10) && day == Fixed(d.day / 10, 1) + [Digit(d.day % 10)];
    assert Fixed(d.day / 10, 1) == Fixed(d.day / 10 / 10, 0) + [Digit(d.day / 10 % 10)];
    assert t.text[5..7] == [m[1], day[0]];
    YearOfFixed(d);
    TwoDigits([m[1], day[0]]);
  }

  const LAST_OF_2025: Date := CalendarDate(2025, 12, 31)

  /** `20251231` is stored on the last day of 2025 and read as month 23. */
  lemma LastOf2025Misread()
    ensures Basic(LAST_OF_2025).text == "20251231" && Basic(LAST_OF_2025).Valid()
    ensures ReadPeriod(Basic(LAST_OF_2025)) == Period(2025, 23)
  {
    BasicReadsRightIff(LAST_OF_2025);
    assert Fixed(2025, 4) == Fixed(202, 3) + "5" && Fixed(202, 3) == Fixed(20, 2) + "2" && Fixed(20, 2) == Fixed(2, 1) + "0";
    assert Fixed(12, 2) == "12" && Fixed(31, 2) == "31";
  }

  /** With the day of the year it reads right exactly from the 10th to the 19th of January. */
  lemma {:induction false} YearDayReadsRightIff(d: Date, leap: bool)
    ensures YearDay(d, leap).Valid() && (ReadsRight(YearDay(d, leap)) <==> d.month == 1 && 10 <= d.day <= 19)
  {
    var t, n := YearDay(d, leap), DaysBefore(d.month, leap) + d.day;
    assert n / 10 < 100;
    assert Fixed(n, 3) == Fixed(n / 10, 2) + [Digit(n % 10)];
    assert t.text[..4] == Fixed(d.year, 4) && t.text[5..7] == Fixed(n / 10, 2);
    YearOfFixed(d);
    assert Pow10(2) == 100;
    NumberOfFixed(n / 10, 2);
  }

  /** Looking a text's key up among the keys is looking the month it reads up in the table; the
      answer is that for the stored month, whatever is locked, exactly when the text reads right. */
  lemma {:induction false} KeyLookup(t: DateText, periods: set<Period>)
    ensures TextKey(t) in Keys(periods) <==> ReadPeriod(t) in periods
    ensures ReadsRight(t) <==> forall locks: set<Period> :: TextKey(t) in Keys(locks) <==> PeriodOf(t.stored) in locks
  {
    forall locks: set<Period> ensures TextKey(t) in Keys(locks) <==> ReadPeriod(t) in locks {
      KeyMember(ReadPeriod(t), locks);
    }
    assert TextKey(t) in Keys({ReadPeriod(t)});
  }

  /** Two-digit and four-digit fields compare as numbers. */
  lemma FieldOrder(m: nat, n: nat)
    requires m < 100 && n < 100
    ensures LexLess(Fixed(m, 2), Fixed(n, 2)) <==> m < n
    ensures Fixed(m, 2) == Fixed(n, 2) <==> m == n
  {
    assert Pow10(2) == 100;
    FixedOrder(m, n, 2);
  }

  lemma YearOrder(m: nat, n: nat)
    requires m < 10000 && n < 10000
    ensures LexLess(Fixed(m, 4), Fixed(n, 4)) <==> m < n
    ensures Fixed(m, 4) == Fixed(n, 4) <==> m == n
  {
    assert Pow10(4) == 10 * Pow10(3) == 10000;
    FixedOrder(m, n, 4);
  }

  lemma DashOrder(s: string, t: string)
    ensures LexLess("-" + s, "-" + t) <==> LexLess(s, t)
  {
    assert ("-" + s)[1..] == s && ("-" + t)[1..] == t;
  }

  /** `MM-DD` compares as month, then day. */
  lemma MonthDayOrder(d: Date, e: Date)
    ensures LexLess(Fixed(d.month, 2) + ("-" + Fixed(d.day, 2)), Fixed(e.month, 2) + ("-" + Fixed(e.day, 2)))
      <==> d.month < e.month || (d.month == e.month && d.day < e.day)
  {
    FieldOrder(d.month, e.month);
    FieldOrder(d.day, e.day);
    DashOrder(Fixed(d.day, 2), Fixed(e.day, 2));
    LexConcat(Fixed(d.month, 2), "-" + Fixed(d.day, 2), Fixed(e.month, 2), "-" + Fixed(e.day, 2));
  }

  lemma IsoPieces(d: Date)
    ensures Iso(d) == Fixed(d.year, 4) + ("-" + (Fixed(d.month, 2) + ("-" + Fixed(d.day, 2))))
  {
  }

  /** Comparing ISO dates as text is comparing the dates. */
  lemma {:induction false} IsoOrder(d: Date, e: Date)
    ensures LexLess(Iso(d), Iso(e)) <==> Ordinal(d) < Ordinal(e)
  {
    var rest, rest' := Fixed(d.month, 2) + ("-" + Fixed(d.day, 2)), Fixed(e.month, 2) + ("-" + Fixed(e.day, 2));
    IsoPieces(d);
    IsoPieces(e);
    YearOrder(d.year, e.year);
    MonthDayOrder(d, e);
    DashOrder(rest, rest');
    LexConcat(Fixed(d.year, 4), "-" + rest, Fixed(e.year, 4), "-" + rest');
  }

  /** A basic text of another year compares as the years do; within a year every date written
      without dashes is later, as text, than every date written with them. */
  lemma {:induction false} BasicOrder(d: Date, today: Date)
    ensures LexLess(Iso(today), Basic(d).text) <==> today.year <= d.year
  {
    var rest, tail := Fixed(today.month, 2) + ("-" + Fixed(today.day, 2)), Fixed(d.month, 2) + Fixed(d.day, 2);
    IsoPieces(today);
    YearOrder(today.year, d.year);
    DashBeforeDigits(rest, tail);
    assert Basic(d).text == Fixed(d.year, 4) + tail;
    LexConcat(Fixed(today.year, 4), "-" + rest, Fixed(d.year, 4), tail);
  }

  lemma DashBeforeDigits(s: string, t: string)
    requires t != "" && IsDigit(t[0])
    ensures LexLess("-" + s, t)
  {
    assert ("-" + s)[0] == '-';
  }
}
