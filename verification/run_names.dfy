/** The directory names that the benchmark runner gives its results (`src/bin/benchmark_runner.rs`):
    the parts of the current time, written with fixed widths. */
module RunNames {
  import opened Common
  import opened Calendar
  import Text

  // ---------------------------------------------------------------------------------------------
  // Zero-padded numbers and the order of strings
  // ---------------------------------------------------------------------------------------------

  function Pow10(w: nat): (r: nat)
    ensures r > 0
  {
    if w == 0 then 1 else 10 * Pow10(w - 1)
  }

  /** A number that is written with at least `w` digits. */
  function Padded(n: nat, w: nat): string {
    var digits := Text.Decimal(n);
    Text.Zeroes(if |digits| < w then w - |digits| else 0) + digits
  }

  /** The same for a signed number, whose sign counts towards the width. */
  function SignPadded(n: int, w: nat): string
    requires w > 0
  {
    if n < 0 then "-" + Padded(-n, w - 1) else Padded(n, w)
  }

  /** The order in which strings are sorted. */
  predicate LexLess(s: string, t: string)
    decreases |s|
  {
    t != "" && (s == "" || s[0] < t[0] || (s[0] == t[0] && LexLess(s[1..], t[1..])))
  }

  lemma {:induction false} LexIrreflexive(s: string)
    ensures !LexLess(s, s)
    decreases |s|
  {
    if s != "" {
      LexIrreflexive(s[1..]);
    }
  }

  lemma {:induction false} LexConcat(a: string, b: string, c: string, d: string)
    requires |a| == |b|
    ensures LexLess(a + c, b + d) <==> LexLess(a, b) || (a == b && LexLess(c, d))
    decreases |a|
  {
    if a == "" {
      assert a + c == c && b + d == d;
    } else {
      LexConcat(a[1..], b[1..], c, d);
      assert (a + c)[1..] == a[1..] + c && (b + d)[1..] == b[1..] + d;
      assert a == [a[0]] + a[1..] && b == [b[0]] + b[1..];
    }
  }

  function Digit(n: nat): char
    requires n < 10
  {
    (n + '0' as int) as char
  }

  lemma PaddedStep(n: nat, w: nat)
    requires w > 1
    ensures Padded(n, w) == Padded(n / 10, w - 1) + [Digit(n % 10)]
  {
    if n >= 10 {
      assert Text.Decimal(n) == Text.Decimal(n / 10) + [Digit(n % 10)];
    } else {
      assert Text.Decimal(n) == [Digit(n)] && Text.Decimal(0) == "0";
    }
  }

  /** Within their width, padded numbers all have that width, and sort as numbers. */
  lemma {:induction false} PaddedOrder(n: nat, m: nat, w: nat)
    requires w >= 1 && n < Pow10(w) && m < Pow10(w)
    ensures |Padded(n, w)| == |Padded(m, w)| == w
    ensures LexLess(Padded(n, w), Padded(m, w)) <==> n < m
    ensures Padded(n, w) == Padded(m, w) <==> n == m
    decreases w
  {
    hide Padded;
    if w == 1 {
      SingleDigit(n);
      SingleDigit(m);
    } else {
      PaddedOrder(n / 10, m / 10, w - 1);
      PaddedStep(n, w);
      PaddedStep(m, w);
      var a, b := Padded(n / 10, w - 1), Padded(m / 10, w - 1);
      LexConcat(a, b, [Digit(n % 10)], [Digit(m % 10)]);
      if n < m {
        LexIrreflexive(Padded(n, w));
      }
      if m < n {
        PaddedOrder(m / 10, n / 10, w - 1);
        LexConcat(b, a, [Digit(m % 10)], [Digit(n % 10)]);
        LexIrreflexive(Padded(n, w));
      }
    }
  }

  lemma SingleDigit(n: nat)
    requires n < 10
    ensures Padded(n, 1) == [Digit(n)]
  {
  }

  /** A padded number can be read back, also when it is longer than its width. */
  lemma PaddedValue(n: nat, w: nat)
    ensures forall i :: 0 <= i < |Padded(n, w)| ==> '0' <= Padded(n, w)[i] <= '9'
    ensures Padded(n, w) != "" && Text.ValueOf(Padded(n, w)) == n
  {
    hide Text.Decimal, Text.ValueOf;
    Text.DecimalDigits(n);
    var digits := Text.Decimal(n);
    Text.LeadingZeros(if |digits| < w then w - |digits| else 0, digits);
  }

  lemma SignPaddedDistinct(n: int, m: int, w: nat)
    requires w > 0 && SignPadded(n, w) == SignPadded(m, w)
    ensures n == m
  {
    hide Padded;
    PaddedValue(if n < 0 then -n else n, if n < 0 then w - 1 else w);
    PaddedValue(if m < 0 then -m else m, if m < 0 then w - 1 else w);
    assert n < 0 <==> SignPadded(n, w)[0] == '-';
    assert m < 0 <==> SignPadded(m, w)[0] == '-';
    if n < 0 && m < 0 {
      assert SignPadded(n, w)[1..] == Padded(-n, w - 1) && SignPadded(m, w)[1..] == Padded(-m, w - 1);
    }
  }

  // ---------------------------------------------------------------------------------------------
  // The names
  // ---------------------------------------------------------------------------------------------

  /** The fields whose widths their ranges fit. */
  predicate InRange(p: DateParts) {
    && 1 <= p.date.month <= 12 && 1 <= p.date.day <= 31
    && 0 <= p.hour < 24 && 0 <= p.minute < 60 && 0 <= p.second < 60
  }

  function Pair(n: nat): string {
    Padded(n, 2)
  }

  /** What follows the year. */
  function Rest(p: DateParts): string
    requires InRange(p)
  {
    Pair(p.date.month) + (Pair(p.date.day) + ("-" + (Pair(p.hour) + (Pair(p.minute) + Pair(p.second)))))
  }

  function Name(p: DateParts): string
    requires InRange(p)
  {
    SignPadded(p.date.year, 4) + Rest(p)
  }

  function RunName(timestamp: int): string
    requires 0 <= timestamp < TWO_64
  {
    FieldsInRange(timestamp);
    Name(ChronoLikeUtc(timestamp))
  }

  lemma FieldsInRange(timestamp: int)
    requires 0 <= timestamp < TWO_64
    ensures InRange(ChronoLikeUtc(timestamp))
  {
    hide CivilFromDays, DaysFromCivil;
    var secs := AsI64(timestamp);
    DaysOfCivil(secs / 86_400);
    TimeOfDay(secs % 86_400);
  }

  predicate RestBefore(a: DateParts, b: DateParts) {
    || a.date.month < b.date.month
    || (a.date.month == b.date.month
        && (|| a.date.day < b.date.day
            || (a.date.day == b.date.day
                && (|| a.hour < b.hour
                    || (a.hour == b.hour
                        && (a.minute < b.minute || (a.minute == b.minute && a.second < b.second)))))))
  }

  lemma PairOrder(n: nat, m: nat, s: string, t: string)
    requires n < 100 && m < 100
    ensures |Pair(n)| == 2 == |Pair(m)|
    ensures LexLess(Pair(n) + s, Pair(m) + t) <==> n < m || (n == m && LexLess(s, t))
    ensures Pair(n) + s == Pair(m) + t <==> n == m && s == t
  {
    hide Padded;
    assert Pow10(2) == 100 by { assert Pow10(1) == 10; }
    PaddedOrder(n, m, 2);
    LexConcat(Pair(n), Pair(m), s, t);
    assert (Pair(n) + s)[..2] == Pair(n) && (Pair(m) + t)[..2] == Pair(m);
    assert (Pair(n) + s)[2..] == s && (Pair(m) + t)[2..] == t;
  }

  /** After the year, names sort as the parts do, and tell them apart. */
  lemma RestOrder(a: DateParts, b: DateParts)
    requires InRange(a) && InRange(b)
    ensures |Rest(a)| == |Rest(b)| == 11
    ensures LexLess(Rest(a), Rest(b)) <==> RestBefore(a, b)
    ensures Rest(a) == Rest(b) ==> a == b.(date := b.date.(year := a.date.year))
  {
    hide Pair, LexLess;
    var sa, sb := Pair(a.second), Pair(b.second);
    assert sa + "" == sa && sb + "" == sb;
    assert !LexLess("", "") by { LexIrreflexive(""); }
    PairOrder(a.second, b.second, "", "");
    var ma, mb := Pair(a.minute) + sa, Pair(b.minute) + sb;
    PairOrder(a.minute, b.minute, sa, sb);
    var ha, hb := Pair(a.hour) + ma, Pair(b.hour) + mb;
    PairOrder(a.hour, b.hour, ma, mb);
    LexConcat("-", "-", ha, hb);
    assert !LexLess("-", "-") by { LexIrreflexive("-"); }
    assert ("-" + ha)[1..] == ha && ("-" + hb)[1..] == hb;
    var da, db := Pair(a.date.day) + ("-" + ha), Pair(b.date.day) + ("-" + hb);
    PairOrder(a.date.day, b.date.day, "-" + ha, "-" + hb);
    PairOrder(a.date.month, b.date.month, da, db);
  }

  // ---------------------------------------------------------------------------------------------
  // Sorting by name is sorting by time
  // ---------------------------------------------------------------------------------------------

  /** The first second of the year 10000. */
  const FIVE_DIGIT_YEAR := 86_400 * 2_932_897

  lemma FourDigitYears(timestamp: int)
    requires 0 <= timestamp < FIVE_DIGIT_YEAR
    ensures ValidParts(ChronoLikeUtc(timestamp)) && 0 <= ChronoLikeUtc(timestamp).date.year < 10_000
  {
    hide CivilFromDays, DaysFromCivil, ChronoLikeUtc;
    PartsAreExact(timestamp);
    var d := ChronoLikeUtc(timestamp).date;
    assert YearStart(10_000) == 2_932_897 && YearStart(1970) == 0;
    YearBracket(d, 10_000);
    YearBracket(d, 1970);
  }

  lemma NameOrder(a: DateParts, b: DateParts)
    requires ValidParts(a) && ValidParts(b) && 0 <= a.date.year < 10_000 && 0 <= b.date.year < 10_000
    ensures LexLess(Name(a), Name(b)) <==> PartsBefore(a, b)
  {
    hide Rest, Padded, LexLess;
    assert Pow10(4) == 10_000 by { assert Pow10(1) == 10 && Pow10(2) == 100 && Pow10(3) == 1000; }
    PaddedOrder(a.date.year, b.date.year, 4);
    RestOrder(a, b);
    LexConcat(Padded(a.date.year, 4), Padded(b.date.year, 4), Rest(a), Rest(b));
  }

  lemma NamesIncrease(earlier: int, later: int)
    requires 0 <= earlier < later < FIVE_DIGIT_YEAR
    ensures LexLess(RunName(earlier), RunName(later))
  {
    hide CivilFromDays, ChronoLikeUtc, Name, LexLess, PartsBefore;
    FourDigitYears(earlier);
    FourDigitYears(later);
    PartsIncrease(earlier, later);
    NameOrder(ChronoLikeUtc(earlier), ChronoLikeUtc(later));
  }

  ghost predicate NamesSort(limit: int)
    requires limit <= TWO_64
  {
    forall earlier, later :: 0 <= earlier < later < limit ==> LexLess(RunName(earlier), RunName(later))
  }

  lemma YearOf(d: Date, n: int)
    requires Valid(d) && n == DaysFromCivil(d) && 0 <= n && 86_400 * n < TWO_63
    ensures ChronoLikeUtc(86_400 * n) == DateParts(d.(year := AsI32(d.year)), 0, 0, 0)
  {
    hide CivilFromDays, DaysFromCivil;
    CivilOfDays(d);
  }

  lemma DaysAround()
    ensures DaysFromCivil(Date(10_000, 1, 1)) == 2_932_897
    ensures YearStart(9_999) == 2_932_532
  {
  }

  lemma FiveDigits()
    ensures ChronoLikeUtc(FIVE_DIGIT_YEAR).date.year == 10_000
  {
    hide CivilFromDays, DaysFromCivil, ChronoLikeUtc;
    DaysAround();
    YearOf(Date(10_000, 1, 1), 2_932_897);
  }

  lemma FourDigits()
    ensures ChronoLikeUtc(FIVE_DIGIT_YEAR - 1).date.year == 9_999
  {
    hide CivilFromDays, DaysFromCivil, YearStart, ChronoLikeUtc, Valid;
    DaysAround();
    FourDigitYears(FIVE_DIGIT_YEAR - 1);
    PartsAreExact(FIVE_DIGIT_YEAR - 1);
    YearBracket(ChronoLikeUtc(FIVE_DIGIT_YEAR - 1).date, 9_999);
  }

  /** The directory of the first second of the year 10000 sorts before the one of the second before. */
  lemma FiveDigitsSortFirst()
    ensures !LexLess(RunName(FIVE_DIGIT_YEAR - 1), RunName(FIVE_DIGIT_YEAR))
  {
    hide CivilFromDays, DaysFromCivil, ChronoLikeUtc, Rest, Padded;
    FiveDigits();
    FourDigits();
    FirstDigits();
  }

  lemma FirstDigits()
    ensures |Padded(9_999, 4)| > 0 && Padded(9_999, 4)[0] == '9'
    ensures |Padded(10_000, 4)| > 0 && Padded(10_000, 4)[0] == '1'
  {
    assert Text.Decimal(9) == "9" && Text.Decimal(99) == "99" && Text.Decimal(999) == "999" && Text.Decimal(9_999) == "9999";
    assert Text.Decimal(1) == "1" && Text.Decimal(10) == "10" && Text.Decimal(100) == "100" && Text.Decimal(1_000) == "1000";
    assert Text.Decimal(10_000) == "10000";
  }

  /** Sorting results by name sorts them by time exactly until the year 10000. */
  lemma NamesSortByTime(limit: int)
    requires limit <= TWO_64
    ensures NamesSort(limit) <==> limit <= FIVE_DIGIT_YEAR
  {
    hide RunName, LexLess;
    if limit <= FIVE_DIGIT_YEAR {
      forall earlier, later | 0 <= earlier < later < limit ensures LexLess(RunName(earlier), RunName(later)) {
        NamesIncrease(earlier, later);
      }
    } else {
      FiveDigitsSortFirst();
    }
  }

  // ---------------------------------------------------------------------------------------------
  // Different seconds have different names
  // ---------------------------------------------------------------------------------------------

  /** The first second of the year 1970 + 2^32, which the 32-bit year shows as 1970. */
  const FIRST_REPEAT := 86_400 * 1_568_704_592_610

  lemma YearsInCycle(timestamp: int)
    requires 0 <= timestamp < FIRST_REPEAT
    ensures 1970 <= CivilFromDays(timestamp / 86_400).year < 1970 + TWO_32
  {
    hide CivilFromDays, DaysFromCivil;
    var n := timestamp / 86_400;
    DaysOfCivil(n);
    assert YearStart(1970) == 0 && YearStart(1970 + TWO_32) == 1_568_704_592_610;
    YearBracket(CivilFromDays(n), 1970);
    YearBracket(CivilFromDays(n), 1970 + TWO_32);
  }

  lemma CastIsInjective(x: int, y: int)
    requires AsI32(x) == AsI32(y) && 1970 <= x < 1970 + TWO_32 && 1970 <= y < 1970 + TWO_32
    ensures x == y
  {
  }

  lemma SamePartsSameTime(a: int, b: int)
    requires 0 <= a < FIRST_REPEAT && 0 <= b < FIRST_REPEAT
    ensures ChronoLikeUtc(a) == ChronoLikeUtc(b) ==> a == b
  {
    hide CivilFromDays, DaysFromCivil, AsI32;
    YearsInCycle(a);
    YearsInCycle(b);
    if ChronoLikeUtc(a) == ChronoLikeUtc(b) {
      CastIsInjective(CivilFromDays(a / 86_400).year, CivilFromDays(b / 86_400).year);
    }
    DaysOfCivil(a / 86_400);
    DaysOfCivil(b / 86_400);
    TimeOfDay(a % 86_400);
    TimeOfDay(b % 86_400);
  }

  lemma NameTellsParts(p: DateParts, q: DateParts)
    requires InRange(p) && InRange(q) && Name(p) == Name(q)
    ensures p == q
  {
    hide Rest, SignPadded;
    RestOrder(p, q);
    var x, y := SignPadded(p.date.year, 4), SignPadded(q.date.year, 4);
    assert |x| == |y| && Name(p)[..|x|] == x && Name(q)[..|y|] == y;
    assert Name(p)[|x|..] == Rest(p) && Name(q)[|y|..] == Rest(q);
    SignPaddedDistinct(p.date.year, q.date.year, 4);
  }

  ghost predicate NamesDiffer(limit: int)
    requires limit <= TWO_64
  {
    forall a, b :: 0 <= a < b < limit ==> RunName(a) != RunName(b)
  }

  /** Runs that start in different seconds never share a directory, exactly until the 32-bit year has
      come round to 1970 again. */
  lemma NamesAreDistinct(limit: int)
    requires limit <= TWO_64
    ensures NamesDiffer(limit) <==> limit <= FIRST_REPEAT
  {
    hide RunName;
    if limit <= FIRST_REPEAT {
      forall a, b | 0 <= a < b < limit ensures RunName(a) != RunName(b) {
        TwoNamesDiffer(a, b);
      }
    } else {
      NameRepeats();
    }
  }

  lemma TwoNamesDiffer(a: int, b: int)
    requires 0 <= a < b < FIRST_REPEAT
    ensures RunName(a) != RunName(b)
  {
    hide ChronoLikeUtc, Name;
    FieldsInRange(a);
    FieldsInRange(b);
    if RunName(a) == RunName(b) {
      NameTellsParts(ChronoLikeUtc(a), ChronoLikeUtc(b));
      SamePartsSameTime(a, b);
    }
  }

  lemma DaysOfRepeat()
    ensures DaysFromCivil(Date(1970, 1, 1)) == 0
    ensures DaysFromCivil(Date(1970 + TWO_32, 1, 1)) == 1_568_704_592_610
  {
  }

  lemma PartsRepeat()
    ensures ChronoLikeUtc(0) == ChronoLikeUtc(FIRST_REPEAT)
  {
    hide ChronoLikeUtc, CivilFromDays, DaysFromCivil;
    DaysOfRepeat();
    YearOf(Date(1970, 1, 1), 0);
    YearOf(Date(1970 + TWO_32, 1, 1), 1_568_704_592_610);
  }

  lemma NameRepeats()
    ensures RunName(0) == RunName(FIRST_REPEAT)
  {
    hide ChronoLikeUtc, Name;
    PartsRepeat();
  }

  /** The shape of a name, at the start of the Unix epoch. */
  lemma FirstName()
    ensures RunName(0) == "19700101-000000"
  {
    EpochParts();
    hide ChronoLikeUtc;
    assert Padded(1970, 4) == "1970" by {
      assert Text.Decimal(1) == "1" && Text.Decimal(19) == "19" && Text.Decimal(197) == "197" && Text.Decimal(1970) == "1970";
    }
    assert Padded(1, 2) == "01" by { assert Text.Decimal(1) == "1"; }
    assert Padded(0, 2) == "00" by { assert Text.Decimal(0) == "0"; }
  }

  lemma EpochParts()
    ensures ChronoLikeUtc(0) == DateParts(Date(1970, 1, 1), 0, 0, 0)
  {
    DaysOfRepeat();
    hide DaysFromCivil, CivilFromDays;
    YearOf(Date(1970, 1, 1), 0);
  }
}
