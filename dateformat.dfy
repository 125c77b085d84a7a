/**
 * The `DeleteAfter` date text: `date.strftime('%m-%d-%Y')` and `time.strptime(text, '%m-%d-%Y')`.
 */
module DateFormat {
  import opened Wrappers
  import opened Text
  import opened Decimal
  import opened Calendar

  /** The layout the lifecycle tag uses, `%m-%d-%Y`. */
  const Separator := '-'

  /** A number below 100 written with two digits, zero-padded (`%m`, `%d` in strftime). */
  function Pad2(n: int): (s: string)
    requires 0 <= n <= 99
    ensures |s| == 2 && AllDigits(s)
  {
    [DigitChar(n / 10), DigitChar(n % 10)]
  }

  /** A year written with four digits, zero-padded (`%Y`). */
  function Pad4(n: int): (s: string)
    requires 0 <= n <= 9999
    ensures |s| == 4 && AllDigits(s)
  {
    [DigitChar(n / 1000), DigitChar(n / 100 % 10), DigitChar(n / 10 % 10), DigitChar(n % 10)]
  }

  /** `d.strftime('%m-%d-%Y')` */
  function Format(d: Date): (s: string)
    requires Valid(d)
    ensures |s| == 10
  {
    Pad2(d.month) + [Separator] + Pad2(d.day) + [Separator] + Pad4(d.year)
  }

  /** strptime's `%m` directive, `1[0-2]|0[1-9]|[1-9]`, applied to a whole field. */
  function MonthField(t: string): (m: Option<int>)
    ensures m.Some? ==> 1 <= m.value <= 12
  {
    if |t| == 1 && '1' <= t[0] <= '9' then Some(DigitValue(t[0]))
    else if |t| == 2 && ((t[0] == '0' && '1' <= t[1] <= '9') || (t[0] == '1' && '0' <= t[1] <= '2')) then
      Some(10 * DigitValue(t[0]) + DigitValue(t[1]))
    else None
  }

  /** strptime's `%d` directive, `3[01]|[12]\d|0[1-9]|[1-9]| [1-9]`, applied to a whole field. */
  function DayField(t: string): (d: Option<int>)
    ensures d.Some? ==> 1 <= d.value <= 31
  {
    if |t| == 1 && '1' <= t[0] <= '9' then Some(DigitValue(t[0]))
    else if |t| == 2 && t[0] == ' ' && '1' <= t[1] <= '9' then Some(DigitValue(t[1]))
    else if |t| == 2 && ((t[0] == '0' && '1' <= t[1] <= '9')
                      || ((t[0] == '1' || t[0] == '2') && IsDigit(t[1]))
                      || (t[0] == '3' && (t[1] == '0' || t[1] == '1'))) then
      Some(10 * DigitValue(t[0]) + DigitValue(t[1]))
    else None
  }

  /** strptime's `%Y` directive, four decimal digits. */
  function YearField(t: string): (y: Option<int>)
    ensures y.Some? ==> 0 <= y.value <= 9999
  {
    if |t| == 4 && AllDigits(t) then
      Some(1000 * DigitValue(t[0]) + 100 * DigitValue(t[1]) + 10 * DigitValue(t[2]) + DigitValue(t[3]))
    else None
  }

  /**
   * `time.strptime(s, '%m-%d-%Y')`, reduced to the date it denotes. No field can hold
   * a '-', so the text matches exactly when its '-'-separated pieces are three valid
   * fields. None is the ValueError strptime raises: text that does not match, year 0,
   * or a day past the end of its month.
   */
  function Parse(s: string): (r: Option<Date>)
    ensures r.Some? ==> Valid(r.value)
  {
    var fields := Split(s, Separator);
    if |fields| != 3 then None
    else
      match (MonthField(fields[0]), DayField(fields[1]), YearField(fields[2]))
      case (Some(m), Some(d), Some(y)) =>
        if MinYear <= y && d <= DaysInMonth(y, m) then Some(Date(y, m, d)) else None
      case _ => None
  }

  lemma MonthFieldOfPad2(m: int)
    requires 1 <= m <= 12
    ensures MonthField(Pad2(m)) == Some(m)
  {
  }

  lemma DayFieldOfPad2(d: int)
    requires 1 <= d <= 31
    ensures DayField(Pad2(d)) == Some(d)
  {
  }

  lemma YearFieldOfPad4(y: int)
    requires 0 <= y <= 9999
    ensures YearField(Pad4(y)) == Some(y)
  {
    var t := Pad4(y);
    var q, e := y / 10, y % 10;
    var p, c := q / 10, q % 10;
    var a, b := p / 10, p % 10;
    QuotientOf(y, 100, p, 10 * c + e);
    QuotientOf(y, 1000, a, 100 * b + 10 * c + e);
    assert DigitValue(t[0]) == a;
    assert DigitValue(t[1]) == b;
    assert DigitValue(t[2]) == c;
    assert DigitValue(t[3]) == e;
  }

  lemma FormatFields(d: Date)
    requires Valid(d)
    ensures Split(Format(d), Separator) == [Pad2(d.month), Pad2(d.day), Pad4(d.year)]
  {
    var parts := [Pad2(d.month), Pad2(d.day), Pad4(d.year)];
    assert Join(parts, Separator) == Format(d) by {
      assert parts[1..][1..] == [Pad4(d.year)];
      assert Join(parts[1..], Separator) == Pad2(d.day) + [Separator] + Pad4(d.year);
    }
    forall i | 0 <= i < 3 ensures Separator !in parts[i] {
      assert AllDigits(parts[i]);
    }
    SplitJoin(parts, Separator);
  }

  /** Parsing a formatted date gives the date back: the `DeleteAfter` tag round-trips. */
  lemma ParseFormat(d: Date)
    requires Valid(d)
    ensures Parse(Format(d)) == Some(d)
  {
    FormatFields(d);
    MonthFieldOfPad2(d.month);
    DayFieldOfPad2(d.day);
    YearFieldOfPad4(d.year);
  }

  lemma DigitRoundTrip(c: char)
    requires IsDigit(c)
    ensures DigitChar(DigitValue(c)) == c
  {
  }

  lemma TwoDigitField(t: string, v: int)
    requires |t| == 2 && IsDigit(t[0]) && IsDigit(t[1]) && v == 10 * DigitValue(t[0]) + DigitValue(t[1])
    ensures 0 <= v <= 99 && Pad2(v) == t
  {
    DigitRoundTrip(t[0]);
    DigitRoundTrip(t[1]);
  }

  lemma FourDigitField(t: string, v: int)
    requires |t| == 4 && AllDigits(t)
    requires v == 1000 * DigitValue(t[0]) + 100 * DigitValue(t[1]) + 10 * DigitValue(t[2]) + DigitValue(t[3])
    ensures 0 <= v <= 9999 && Pad4(v) == t
  {
    assert IsDigit(t[0]) && IsDigit(t[1]) && IsDigit(t[2]) && IsDigit(t[3]);
    var a, b, c, e := DigitValue(t[0]), DigitValue(t[1]), DigitValue(t[2]), DigitValue(t[3]);
    QuotientOf(v, 1000, a, 100 * b + 10 * c + e);
    QuotientOf(v, 100, 10 * a + b, 10 * c + e);
    QuotientOf(10 * a + b, 10, a, b);
    QuotientOf(v, 10, 100 * a + 10 * b + c, e);
    QuotientOf(100 * a + 10 * b + c, 10, 10 * a + b, c);
    DigitRoundTrip(t[0]);
    DigitRoundTrip(t[1]);
    DigitRoundTrip(t[2]);
    DigitRoundTrip(t[3]);
  }

  lemma QuotientOf(n: int, k: int, q: int, r: int)
    requires k == 10 || k == 100 || k == 1000
    requires 0 <= r < k && n == k * q + r
    ensures n / k == q && n % k == r
  {
    if k == 10 {
      assert n == 10 * q + r;
    } else if k == 100 {
      assert n == 100 * q + r;
    } else {
      assert n == 1000 * q + r;
    }
  }

  lemma JoinThree(a: string, b: string, c: string)
    ensures Join([a, b, c], Separator) == a + [Separator] + b + [Separator] + c
  {
    assert [a, b, c][1..] == [b, c];
    assert [b, c][1..] == [c];
    assert Join([b, c], Separator) == b + [Separator] + c;
  }

  /**
   * strptime is more lenient than strftime (one-digit fields, a space before a
   * one-digit day), but a ten-character text without spaces that parses is exactly
   * the formatted text of the date it denotes.
   */
  lemma FormatParse(s: string)
    requires Parse(s).Some? && |s| == 10 && ' ' !in s
    ensures Format(Parse(s).value) == s
  {
    var fields := Split(s, Separator);
    var d := Parse(s).value;
    JoinSplit(s, Separator);
    JoinThree(fields[0], fields[1], fields[2]);
    assert fields == [fields[0], fields[1], fields[2]];
    var f0, f1, f2 := fields[0], fields[1], fields[2];
    assert |f0| <= 2 && |f1| <= 2 && |f2| == 4;
    assert |s| == |f0| + |f1| + |f2| + 2;
    assert f1[0] in s by {
      assert s[|f0| + 1] == f1[0];
    }
    TwoDigitField(f0, d.month);
    TwoDigitField(f1, d.day);
    FourDigitField(f2, d.year);
  }
}
