/** The written form of a moment: in the report as RFC 3339 has it, and without the
    separators in a signed request. */
module CalendarText {
  import opened Calendar

  function Digit(n: int): char
    requires 0 <= n < 10
  {
    '0' + n as char
  }

  function Digits(n: nat): string {
    if n < 10 then [Digit(n)] else Digits(n / 10) + [Digit(n % 10)]
  }

  function Zeros(n: nat): string {
    seq(n, _ => '0')
  }

  /** At least `width` digits. */
  function Padded(n: nat, width: nat): string {
    if |Digits(n)| < width then Zeros(width - |Digits(n)|) + Digits(n) else Digits(n)
  }

  predicate Writable(m: Moment) {
    m.date.year >= 0 && m.date.month >= 0 && m.date.day >= 0 && m.hour >= 0 && m.minute >= 0 && m.second >= 0
  }

  function Report(m: Moment): string
    requires Writable(m)
  {
    Padded(m.date.year, 4) + ("-" + (Padded(m.date.month, 2) + ("-" + (Padded(m.date.day, 2) + ("T" +
    (Padded(m.hour, 2) + (":" + (Padded(m.minute, 2) + (":" + (Padded(m.second, 2) + "Z"))))))))))
  }

  function Signed(m: Moment): string
    requires Writable(m)
  {
    Padded(m.date.year, 4) + (Padded(m.date.month, 2) + (Padded(m.date.day, 2) + ("T" +
    (Padded(m.hour, 2) + (Padded(m.minute, 2) + (Padded(m.second, 2) + "Z"))))))
  }

  // ---- Without the separators the two are the same ----

  function Bare(s: string): string {
    if s == "" then "" else (if s[0] == '-' || s[0] == ':' then "" else [s[0]]) + Bare(s[1..])
  }

  lemma {:induction false} BareAppend(a: string, b: string)
    ensures Bare(a + b) == Bare(a) + Bare(b)
  {
    if a == "" {
      assert a + b == b;
    } else {
      assert (a + b)[1..] == a[1..] + b;
      BareAppend(a[1..], b);
    }
  }

  lemma {:induction false} DigitsBare(n: nat)
    ensures Bare(Digits(n)) == Digits(n)
  {
    if n >= 10 {
      DigitsBare(n / 10);
      BareAppend(Digits(n / 10), [Digit(n % 10)]);
    }
  }

  lemma {:induction false} ZerosBare(n: nat)
    ensures Bare(Zeros(n)) == Zeros(n)
  {
    if n > 0 {
      assert Zeros(n)[1..] == Zeros(n - 1);
      ZerosBare(n - 1);
    }
  }

  lemma {:induction false} PaddedBare(n: nat, width: nat, rest: string)
    ensures Bare(Padded(n, width) + rest) == Padded(n, width) + Bare(rest)
  {
    DigitsBare(n);
    if |Digits(n)| < width {
      ZerosBare(width - |Digits(n)|);
      BareAppend(Zeros(width - |Digits(n)|), Digits(n));
    }
    BareAppend(Padded(n, width), rest);
  }

  lemma {:induction false} SeparatorBare(c: char, rest: string)
    ensures Bare([c] + rest) == if c == '-' || c == ':' then Bare(rest) else [c] + Bare(rest)
  {
    assert ([c] + rest)[1..] == rest;
  }

  lemma {:induction false} TimeBare(m: Moment)
    requires Writable(m)
    ensures Bare(Padded(m.hour, 2) + (":" + (Padded(m.minute, 2) + (":" + (Padded(m.second, 2) + "Z")))))
         == Padded(m.hour, 2) + (Padded(m.minute, 2) + (Padded(m.second, 2) + "Z"))
  {
    var s := Padded(m.second, 2) + "Z";
    var t := Padded(m.minute, 2) + (":" + s);
    PaddedBare(m.second, 2, "Z");
    SeparatorBare('Z', "");
    SeparatorBare(':', s);
    PaddedBare(m.minute, 2, ":" + s);
    SeparatorBare(':', t);
    PaddedBare(m.hour, 2, ":" + t);
    assert "Z" + "" == "Z";
  }

  /** The signed form is the reported form with the separators left out. */
  lemma {:induction false} SameText(m: Moment)
    requires Writable(m)
    ensures Bare(Report(m)) == Signed(m)
  {
    var time := Padded(m.hour, 2) + (":" + (Padded(m.minute, 2) + (":" + (Padded(m.second, 2) + "Z"))));
    TimeBare(m);
    SeparatorBare('T', time);
    var day := Padded(m.date.day, 2) + ("T" + time);
    PaddedBare(m.date.day, 2, "T" + time);
    SeparatorBare('-', day);
    var month := Padded(m.date.month, 2) + ("-" + day);
    PaddedBare(m.date.month, 2, "-" + day);
    SeparatorBare('-', month);
    PaddedBare(m.date.year, 4, "-" + month);
  }

  // ---- Text sorts as time ----

  /** Character by character, as strings are compared. */
  predicate Below(a: string, b: string) {
    if a == "" then b != ""
    else b != "" && (a[0] < b[0] || (a[0] == b[0] && Below(a[1..], b[1..])))
  }

  lemma {:induction false} BelowPrefix(p: string, a: string, b: string)
    requires Below(a, b)
    ensures Below(p + a, p + b)
  {
    if p == "" {
      assert p + a == a && p + b == b;
    } else {
      assert (p + a)[1..] == p[1..] + a && (p + b)[1..] == p[1..] + b;
      BelowPrefix(p[1..], a, b);
    }
  }

  function Power(width: nat): nat {
    if width == 0 then 1 else 10 * Power(width - 1)
  }

  /** Exactly `width` digits. */
  function Fixed(n: nat, width: nat): string {
    if width == 0 then "" else Fixed(n / 10, width - 1) + [Digit(n % 10)]
  }

  lemma {:induction false} FixedZero(width: nat)
    ensures Fixed(0, width) == Zeros(width)
  {
    if width > 0 { FixedZero(width - 1); }
  }

  lemma {:induction false} PaddedFixed(n: nat, width: nat)
    requires width > 0 && n < Power(width)
    ensures Padded(n, width) == Fixed(n, width) && |Digits(n)| <= width
    decreases width
  {
    if n < 10 {
      FixedZero(width - 1);
      assert Padded(n, width) == Zeros(width - 1) + [Digit(n)];
    } else {
      PaddedFixed(n / 10, width - 1);
      assert Padded(n, width) == Padded(n / 10, width - 1) + [Digit(n % 10)];
    }
  }

  lemma {:induction false} FixedOrder(m: nat, n: nat, width: nat, a: string, b: string)
    requires m < n < Power(width)
    ensures Below(Fixed(m, width) + a, Fixed(n, width) + b)
    decreases width
  {
    var x, y := [Digit(m % 10)] + a, [Digit(n % 10)] + b;
    assert Fixed(m, width) + a == Fixed(m / 10, width - 1) + x;
    assert Fixed(n, width) + b == Fixed(n / 10, width - 1) + y;
    if m / 10 < n / 10 {
      FixedOrder(m / 10, n / 10, width - 1, x, y);
    } else {
      assert Below(x, y);
      BelowPrefix(Fixed(m / 10, width - 1), x, y);
    }
  }

  /** Smaller numbers sort first, and equal ones leave it to what follows. */
  lemma {:induction false} FieldOrder(m: nat, n: nat, width: nat, separator: string, a: string, b: string)
    requires width > 0 && n < Power(width) && (m < n || (m == n && Below(a, b)))
    ensures Below(Padded(m, width) + (separator + a), Padded(n, width) + (separator + b))
  {
    if m < n {
      PaddedFixed(m, width);
      PaddedFixed(n, width);
      FixedOrder(m, n, width, separator + a, separator + b);
    } else {
      BelowPrefix(separator, a, b);
      BelowPrefix(Padded(m, width), separator + a, separator + b);
    }
  }

  function Time(m: Moment): string
    requires Writable(m)
  {
    Padded(m.hour, 2) + (":" + (Padded(m.minute, 2) + (":" + (Padded(m.second, 2) + "Z"))))
  }

  predicate EarlierTime(m: Moment, n: Moment) {
    m.hour < n.hour || (m.hour == n.hour && (m.minute < n.minute || (m.minute == n.minute && m.second < n.second)))
  }

  predicate InDay(m: Moment) {
    0 <= m.hour < 24 && 0 <= m.minute < 60 && 0 <= m.second < 60
  }

  lemma {:induction false} TimeOrder(m: Moment, n: Moment)
    requires Writable(m) && Writable(n) && InDay(m) && InDay(n) && EarlierTime(m, n)
    ensures Below(Time(m), Time(n))
  {
    assert Power(2) == 100;
    var s, t := Padded(m.second, 2) + "Z", Padded(n.second, 2) + "Z";
    if m.hour == n.hour && m.minute == n.minute {
      assert "" + "Z" == "Z";
      FieldOrder(m.second, n.second, 2, "", "Z", "Z");
    }
    if m.hour == n.hour { FieldOrder(m.minute, n.minute, 2, ":", s, t); }
    FieldOrder(m.hour, n.hour, 2, ":", Padded(m.minute, 2) + (":" + s), Padded(n.minute, 2) + (":" + t));
  }

  lemma {:induction false} ReportOrder(m: Moment, n: Moment)
    requires Writable(m) && Writable(n) && Valid(m.date) && Valid(n.date) && n.date.year < 10000
    requires Earlier(m.date, n.date) || (m.date == n.date && Below(Time(m), Time(n)))
    ensures Below(Report(m), Report(n))
  {
    assert Power(2) == 100 && Power(4) == 10000;
    var a, b := m.date, n.date;
    var s, t := Padded(a.day, 2) + ("T" + Time(m)), Padded(b.day, 2) + ("T" + Time(n));
    var u, v := Padded(a.month, 2) + ("-" + s), Padded(b.month, 2) + ("-" + t);
    if a.year == b.year && a.month == b.month { FieldOrder(a.day, b.day, 2, "T", Time(m), Time(n)); }
    if a.year == b.year { FieldOrder(a.month, b.month, 2, "-", s, t); }
    FieldOrder(a.year, b.year, 4, "-", u, v);
  }

  lemma {:induction false} EarlierInDay(m: Moment, n: Moment)
    requires InDay(m) && InDay(n)
    requires m.hour * 3600 + m.minute * 60 + m.second < n.hour * 3600 + n.minute * 60 + n.second
    ensures EarlierTime(m, n)
  {}

  lemma {:induction false} SinceEpoch(seconds: nat)
    ensures Writable(Utc(seconds)) && InDay(Utc(seconds)) && Valid(Utc(seconds).date)
  {
    hide Utc, CivilFromDays, DayCount;
    UtcRight(seconds);
    SameDate(seconds);
    Epoch();
    if seconds / 86400 > 0 { DatesGrow(0, seconds / 86400); }
  }

  /** Reports sort by time as text, through the year 9999; and the two formats agree at
      every moment since the epoch. */
  lemma {:induction false} TextOrder(first: nat, later: nat)
    requires first < later
    ensures Writable(Utc(first)) && Writable(Utc(later))
    ensures Utc(later).date.year < 10000 ==> Below(Report(Utc(first)), Report(Utc(later)))
    ensures Bare(Report(Utc(first))) == Signed(Timestamp(first))
  {
    SinceEpoch(first);
    SinceEpoch(later);
    UtcRight(first);
    UtcRight(later);
    SameDate(first);
    SameDate(later);
    hide Utc, CivilFromDays, Timestamp, DayCount, Below, Report, Signed, Bare;
    SameText(Utc(first));
    if Utc(later).date.year < 10000 {
      if first / 86400 < later / 86400 {
        DatesGrow(first / 86400, later / 86400);
      } else {
        EarlierInDay(Utc(first), Utc(later));
        TimeOrder(Utc(first), Utc(later));
      }
      ReportOrder(Utc(first), Utc(later));
    }
  }

  // ---- And reads back ----

  function ValueOf(c: char): nat {
    match c
    case '1' => 1
    case '2' => 2
    case '3' => 3
    case '4' => 4
    case '5' => 5
    case '6' => 6
    case '7' => 7
    case '8' => 8
    case '9' => 9
    case _ => 0
  }

  predicate IsNumeral(s: string) {
    forall c | c in s :: '0' <= c <= '9'
  }

  /** What a numeral says. */
  function Number(s: string): nat {
    if s == "" then 0 else Number(s[..|s| - 1]) * 10 + ValueOf(s[|s| - 1])
  }

  lemma {:induction false} DigitReads(n: int)
    requires 0 <= n < 10
    ensures ValueOf(Digit(n)) == n && '0' <= Digit(n) <= '9'
  {}

  lemma {:induction false} FixedReads(n: nat, width: nat)
    requires n < Power(width)
    ensures |Fixed(n, width)| == width && IsNumeral(Fixed(n, width)) && Number(Fixed(n, width)) == n
    decreases width
  {
    if width > 0 {
      FixedReads(n / 10, width - 1);
      DigitReads(n % 10);
      var init := Fixed(n / 10, width - 1);
      assert Fixed(n, width)[..width - 1] == init;
    }
  }

  /** `s` has at `i` the `width` digits of `n`, and then the character `after`. */
  predicate Field(s: string, i: nat, width: nat, n: int, after: char) {
    i + width < |s| && IsNumeral(s[i..i + width]) && Number(s[i..i + width]) == n && s[i + width] == after
  }

  lemma {:induction false} FieldReads(n: nat, width: nat, after: char, rest: string, before: string, s: string)
    requires width > 0 && n < Power(width) && s == before + (Padded(n, width) + ([after] + rest))
    ensures Field(s, |before|, width, n, after) && |s| == |before| + width + 1 + |rest|
    ensures s == s[..|before| + width + 1] + rest
  {
    PaddedFixed(n, width);
    FixedReads(n, width);
    hide Padded, Fixed, Number, IsNumeral;
    var i := |before|;
    assert s[i..i + width] == Padded(n, width);
    assert s[i + width] == after;
    assert s[i + width + 1..] == rest;
  }

  lemma {:induction false} TimeReads(m: Moment, before: string, s: string)
    requires Writable(m) && InDay(m) && s == before + Time(m)
    ensures var i := |before|;
            && |s| == i + 9 && Field(s, i, 2, m.hour, ':')
            && Field(s, i + 3, 2, m.minute, ':') && Field(s, i + 6, 2, m.second, 'Z')
  {
    hide Padded, Number, IsNumeral, Field;
    assert Power(2) == 100;
    var c := Padded(m.second, 2) + "Z";
    var b := Padded(m.minute, 2) + (":" + c);
    FieldReads(m.hour, 2, ':', b, before, s);
    var t := s[..|before| + 3];
    FieldReads(m.minute, 2, ':', c, t, s);
    assert s[..|t| + 3] + c == s;
    assert c == Padded(m.second, 2) + (['Z'] + "");
    FieldReads(m.second, 2, 'Z', "", s[..|t| + 3], s);
  }

  /** Through the year 9999 a report is twenty characters from which the year, the month, the
      day, the hour, the minute and the second can each be read. */
  lemma {:induction false} ReportReads(m: Moment)
    requires Writable(m) && InDay(m) && Valid(m.date) && m.date.year < 10000
    ensures var s := Report(m);
            && |s| == 20 && Field(s, 0, 4, m.date.year, '-') && Field(s, 5, 2, m.date.month, '-')
            && Field(s, 8, 2, m.date.day, 'T')
            && Field(s, 11, 2, m.hour, ':') && Field(s, 14, 2, m.minute, ':') && Field(s, 17, 2, m.second, 'Z')
  {
    hide Padded, Number, IsNumeral, Field;
    assert Power(2) == 100 && Power(4) == 10000;
    var s := Report(m);
    var c := Padded(m.date.day, 2) + ("T" + Time(m));
    var b := Padded(m.date.month, 2) + ("-" + c);
    assert s == "" + (Padded(m.date.year, 4) + ("-" + b));
    FieldReads(m.date.year, 4, '-', b, "", s);
    FieldReads(m.date.month, 2, '-', c, s[..5], s);
    FieldReads(m.date.day, 2, 'T', Time(m), s[..8], s);
    TimeReads(m, s[..11], s);
  }
}
