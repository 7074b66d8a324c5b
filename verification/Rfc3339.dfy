/**
 * RFC 3339 timestamps (section 5.6): the lenient reader used to match
 * transcripts and the printer used to stamp generated files. A text is a
 * sequence of bytes, written as characters.
 */
module Rfc3339 {
  import opened Wrappers
  import opened Calendar

  predicate IsDigit(c: char) {
    '0' <= c <= '9'
  }

  predicate AllDigits(s: string) {
    forall c :: c in s ==> IsDigit(c)
  }

  function DigitValue(c: char): nat
    requires IsDigit(c)
  {
    c as int - '0' as int
  }

  function DigitsValue(s: string): nat
    requires AllDigits(s)
  {
    if s == [] then 0 else 10 * DigitsValue(s[..|s| - 1]) + DigitValue(s[|s| - 1])
  }

  /** A decimal integer with an optional sign, as the standard library reads one. */
  function ParseInt(s: string): Option<int> {
    if s == [] then None
    else if s[0] == '-' || s[0] == '+' then
      if |s| == 1 || !AllDigits(s[1..]) then None
      else
        var v: int := DigitsValue(s[1..]);
        Some(if s[0] == '-' then -v else v)
    else if AllDigits(s) then Some(DigitsValue(s))
    else None
  }

  // ---------------------------------------------------------------- reading

  /** How many digits the text opens with. */
  function LeadingDigits(s: string): (n: nat)
    ensures n <= |s| && AllDigits(s[..n]) && (n < |s| ==> !IsDigit(s[n]))
  {
    if s == [] || !IsDigit(s[0]) then 0
    else
      var n := LeadingDigits(s[1..]);
      assert s[..n + 1] == [s[0]] + s[1..][..n];
      n + 1
  }

  /** The first three digits of a fraction, padded on the right with zeros. */
  function Millis(digits: string): nat
    requires AllDigits(digits)
  {
    if |digits| == 0 then 0
    else if |digits| == 1 then 100 * DigitsValue(digits)
    else if |digits| == 2 then 10 * DigitsValue(digits)
    else DigitsValue(digits[..3])
  }

  datatype Tail = Tail(millis: nat, rest: string)

  /** An optional fraction; a full stop must be followed by a digit. */
  function ReadFraction(rest: string): Option<Tail> {
    if rest == [] || rest[0] != '.' then Some(Tail(0, rest))
    else
      var n := LeadingDigits(rest[1..]);
      if n == 0 then None else Some(Tail(Millis(rest[1..][..n]), rest[1 + n..]))
  }

  /** Offset in minutes: absent, `Z`, `+HH:MM`, `+HHMM` or `+HH`. */
  function ReadOffset(rest: string): Option<int> {
    if rest == [] || rest[0] == 'Z' || rest[0] == 'z' then Some(0)
    else if rest[0] != '+' && rest[0] != '-' then None
    else
      var t := rest[1..];
      if |t| < 2 then None
      else
        var hh := t[0..2];
        var mm := if |t| >= 5 && t[2] == ':' then t[3..5] else if |t| >= 4 then t[2..4] else "00";
        var h, m := ParseInt(hh), ParseInt(mm);
        if h.None? || m.None? then None
        else Some((if rest[0] == '-' then -1 else 1) * (h.value * 60 + m.value))
  }

  datatype Clock = Clock(hour: int, minute: int, second: int)

  /** Milliseconds since the epoch of a wall-clock time at an offset. */
  function Instant(date: Date, at: Clock, offset: int, millis: nat): int {
    (Days(date) * 86400 + at.hour * 3600 + at.minute * 60 + at.second - offset * 60) * 1000 + millis
  }

  predicate Separators(s: string) {
    && |s| >= 19 && s[4] == '-' && s[7] == '-' && s[10] in {'T', 't', ' '} && s[13] == ':' && s[16] == ':'
  }

  /** The six numbers, in range as far as the reader checks: every month has 31 days, second 60 passes. */
  function ReadFields(s: string): Option<(Date, Clock)>
    requires Separators(s)
  {
    var y, mo, d := ParseInt(s[0..4]), ParseInt(s[5..7]), ParseInt(s[8..10]);
    var h, mi, se := ParseInt(s[11..13]), ParseInt(s[14..16]), ParseInt(s[17..19]);
    if y.None? || mo.None? || d.None? || h.None? || mi.None? || se.None? then None
    else if !(1 <= mo.value <= 12) || !(1 <= d.value <= 31) || h.value > 23 || mi.value > 59 || se.value > 60 then None
    else Some((Date(y.value, mo.value, d.value), Clock(h.value, mi.value, se.value)))
  }

  function ReadTail(s: string): Option<(nat, int)> {
    var tail := ReadFraction(s);
    if tail.None? then None
    else
      var offset := ReadOffset(tail.value.rest);
      if offset.None? then None else Some((tail.value.millis, offset.value))
  }

  /** Milliseconds since the epoch, or None for a text not in one of the accepted shapes. */
  function Parse(s: string): Option<int> {
    if !Separators(s) then None
    else
      var fields, tail := ReadFields(s), ReadTail(s[19..]);
      if fields.None? || tail.None? then None
      else Some(Instant(fields.value.0, fields.value.1, tail.value.1, tail.value.0))
  }

  // ---------------------------------------------------------------- printing

  function DigitChar(n: nat): char
    requires n < 10
  {
    '0' + n as char
  }

  /** Decimal digits without leading zeros. */
  function Digits(n: nat): string {
    if n < 10 then [DigitChar(n)] else Digits(n / 10) + [DigitChar(n % 10)]
  }

  function Zeros(n: nat): string {
    if n == 0 then "" else Zeros(n - 1) + "0"
  }

  /** Decimal digits, zero-padded on the left to at least `width`. */
  function Padded(n: nat, width: nat): string {
    var digits := Digits(n);
    if |digits| >= width then digits else Zeros(width - |digits|) + digits
  }

  function Layout(y: string, mo: string, d: string, sep: char, h: string, mi: string, se: string): string {
    y + "-" + mo + "-" + d + [sep] + h + ":" + mi + ":" + se
  }

  function Stamp(date: Date, at: Clock, sep: char): string
    requires date.year >= 0 && date.month >= 0 && date.day >= 0 && at.hour >= 0 && at.minute >= 0 && at.second >= 0
  {
    Layout(Padded(date.year, 4), Padded(date.month, 2), Padded(date.day, 2), sep,
           Padded(at.hour, 2), Padded(at.minute, 2), Padded(at.second, 2))
  }

  function ClockOf(rem: nat): Clock {
    Clock(rem / 3600, rem % 3600 / 60, rem % 60)
  }

  /** Unix seconds as `YYYY-MM-DDTHH:MM:SSZ`; a year past 9999 takes more digits. */
  function FormatEpochUtc(secs: nat): string {
    SinceEpoch(secs / 86400);
    Stamp(CivilFromDays(secs / 86400), ClockOf(secs % 86400), 'T') + "Z"
  }

  datatype Offset = Absent | Zulu(letter: char) | Hours(minus: bool, hours: nat)
                  | Compact(minus: bool, hours: nat, minutes: nat) | Colon(minus: bool, hours: nat, minutes: nat) {
    predicate Printable() {
      match this
      case Absent => true
      case Zulu(c) => c == 'Z' || c == 'z'
      case Hours(_, h) => h < 100
      case Compact(_, h, m) => h < 100 && m < 100
      case Colon(_, h, m) => h < 100 && m < 100
    }

    function Minutes(): int {
      match this
      case Absent => 0
      case Zulu(_) => 0
      case Hours(minus, h) => if minus then -(60 * h) else 60 * h
      case Compact(minus, h, m) => if minus then -(60 * h + m) else 60 * h + m
      case Colon(minus, h, m) => if minus then -(60 * h + m) else 60 * h + m
    }

    function Text(): string {
      match this
      case Absent => ""
      case Zulu(c) => [c]
      case Hours(minus, h) => [if minus then '-' else '+'] + Padded(h, 2)
      case Compact(minus, h, m) => [if minus then '-' else '+'] + Padded(h, 2) + Padded(m, 2)
      case Colon(minus, h, m) => [if minus then '-' else '+'] + Padded(h, 2) + ":" + Padded(m, 2)
    }
  }

  function FractionText(digits: string): string {
    if digits == [] then "" else "." + digits
  }

  // ---------------------------------------------------------------- proofs

  lemma {:induction false} ZerosAreDigits(n: nat)
    ensures AllDigits(Zeros(n)) && |Zeros(n)| == n
  {
    if n > 0 {
      ZerosAreDigits(n - 1);
    }
  }

  lemma {:induction false} DigitsRoundTrip(n: nat)
    ensures AllDigits(Digits(n)) && DigitsValue(Digits(n)) == n && Digits(n) != []
  {
    if n >= 10 {
      DigitsRoundTrip(n / 10);
      assert Digits(n)[..|Digits(n)| - 1] == Digits(n / 10);
    } else {
      assert Digits(n)[..0] == [];
    }
  }

  lemma {:induction false} ZerosAddNothing(k: nat, s: string)
    requires AllDigits(s)
    ensures AllDigits(Zeros(k) + s) && DigitsValue(Zeros(k) + s) == DigitsValue(s)
  {
    ZerosAreDigits(k);
    if s != [] {
      var init := s[..|s| - 1];
      ZerosAddNothing(k, init);
      assert (Zeros(k) + s)[..k + |s| - 1] == Zeros(k) + init;
    } else if k > 0 {
      ZerosAddNothing(k - 1, "");
      assert Zeros(k) + s == Zeros(k) && Zeros(k)[..k - 1] == Zeros(k - 1) + "";
    } else {
      assert Zeros(k) + s == s;
    }
  }

  lemma {:induction false} DigitCount(n: nat, width: nat, bound: nat)
    requires width >= 1 && bound == Power10(width)
    ensures |Digits(n)| <= width <==> n < bound
  {
    if width > 1 && n >= 10 {
      DigitCount(n / 10, width - 1, Power10(width - 1));
    } else if n >= 10 {
      DigitsRoundTrip(n / 10);
    } else {
      PowerAtLeast10(width);
    }
  }

  function Power10(k: nat): nat {
    if k == 0 then 1 else 10 * Power10(k - 1)
  }

  lemma {:induction false} PowerAtLeast10(k: nat)
    requires k >= 1
    ensures Power10(k) >= 10
  {
    if k > 1 {
      PowerAtLeast10(k - 1);
    }
  }

  /** A number that fits its field reads back as itself; one that does not is longer than the field. */
  lemma PaddedReads(n: nat, width: nat)
    requires width >= 1
    ensures AllDigits(Padded(n, width)) && |Padded(n, width)| >= width
    ensures ParseInt(Padded(n, width)) == Some(n)
    ensures |Padded(n, width)| == width <==> n < Power10(width)
  {
    DigitsRoundTrip(n);
    DigitCount(n, width, Power10(width));
    if |Digits(n)| < width {
      ZerosAddNothing(width - |Digits(n)|, Digits(n));
      ZerosAreDigits(width - |Digits(n)|);
    }
    assert Padded(n, width)[0] in Padded(n, width);
  }

  lemma TwoDigits(n: nat)
    requires n < 100
    ensures |Padded(n, 2)| == 2 && AllDigits(Padded(n, 2)) && ParseInt(Padded(n, 2)) == Some(n)
  {
    PaddedReads(n, 2);
    assert Power10(2) == 100 by { assert Power10(1) == 10; }
  }

  lemma FourDigits(n: nat)
    ensures |Padded(n, 4)| >= 4 && AllDigits(Padded(n, 4)) && ParseInt(Padded(n, 4)) == Some(n)
    ensures |Padded(n, 4)| == 4 <==> n < 10000
  {
    PaddedReads(n, 4);
    assert Power10(4) == 10000 by { assert Power10(3) == 1000 by { assert Power10(2) == 100; } }
  }

  predicate InRange(date: Date, at: Clock) {
    && 0 <= date.year < 10000 && 1 <= date.month <= 12 && 1 <= date.day <= 31
    && 0 <= at.hour <= 23 && 0 <= at.minute <= 59 && 0 <= at.second <= 60
  }

  /** Where the fields of a nineteen-byte stamp lie. */
  lemma StampLayout(y: string, mo: string, d: string, sep: char, h: string, mi: string, se: string, rest: string)
    requires |y| == 4 && |mo| == |d| == |h| == |mi| == |se| == 2 && sep in {'T', 't', ' '}
    ensures var s := Layout(y, mo, d, sep, h, mi, se) + rest;
            && |s| == 19 + |rest| && Separators(s) && s[0..4] == y && s[5..7] == mo && s[8..10] == d
            && s[11..13] == h && s[14..16] == mi && s[17..19] == se && s[19..] == rest
  {
    var s := Layout(y, mo, d, sep, h, mi, se) + rest;
    assert s[0..4] == y && s[4] == '-';
    assert s[5..7] == mo && s[7] == '-';
    assert s[8..10] == d && s[10] == sep;
    assert s[11..13] == h && s[13] == ':';
    assert s[14..16] == mi && s[16] == ':';
    assert s[17..19] == se;
    assert s[19..] == rest;
  }

  /** Numbers of the right width are taken exactly when they are in range; the reader knows no shorter month and no missing leap second. */
  lemma StampReads(date: Date, at: Clock, sep: char, rest: string)
    requires 0 <= date.year < 10000 && 0 <= date.month < 100 && 0 <= date.day < 100
    requires 0 <= at.hour < 100 && 0 <= at.minute < 100 && 0 <= at.second < 100 && sep in {'T', 't', ' '}
    ensures |Stamp(date, at, sep)| == 19 && Separators(Stamp(date, at, sep) + rest) && (Stamp(date, at, sep) + rest)[19..] == rest
    ensures ReadFields(Stamp(date, at, sep) + rest)
            == if 1 <= date.month <= 12 && 1 <= date.day <= 31 && at.hour <= 23 && at.minute <= 59 && at.second <= 60 then Some((date, at)) else None
  {
    FourDigits(date.year);
    TwoDigits(date.month);
    TwoDigits(date.day);
    TwoDigits(at.hour);
    TwoDigits(at.minute);
    TwoDigits(at.second);
    hide Padded, ParseInt, Separators, Layout, AllDigits;
    StampLayout(Padded(date.year, 4), Padded(date.month, 2), Padded(date.day, 2), sep,
                Padded(at.hour, 2), Padded(at.minute, 2), Padded(at.second, 2), rest);
  }

  lemma OffsetText(sign: char, hh: string, mm: string, h: nat, m: nat)
    requires (sign == '+' || sign == '-') && |hh| == |mm| == 2 && AllDigits(mm)
    requires ParseInt(hh) == Some(h) && ParseInt(mm) == Some(m)
    ensures var minutes: int := 60 * h + m; var signed := if sign == '-' then -minutes else minutes;
            && ReadOffset([sign] + hh + mm) == Some(signed)
            && ReadOffset([sign] + hh + ":" + mm) == Some(signed)
            && (mm == "00" ==> ReadOffset([sign] + hh) == Some(signed))
  {
    hide ParseInt;
    var compact, colon, hours := [sign] + hh + mm, [sign] + hh + ":" + mm, [sign] + hh;
    assert compact[1..][0..2] == hh && compact[1..][2..4] == mm;
    assert colon[1..][0..2] == hh && colon[1..][3..5] == mm && colon[1..][2] == ':';
    assert hours[1..][0..2] == hh;
  }

  lemma DoubleZero()
    ensures AllDigits("00") && ParseInt("00") == Some(0)
  {
    TwoDigits(0);
    assert "00" == Padded(0, 2) by { assert Zeros(1) == "0"; }
  }

  lemma NumericOffsetReads(offset: Offset)
    requires offset.Printable() && !offset.Absent? && !offset.Zulu?
    ensures ReadOffset(offset.Text()) == Some(offset.Minutes())
  {
    hide Padded, ParseInt, ReadOffset, AllDigits;
    var sign := if offset.minus then '-' else '+';
    TwoDigits(offset.hours);
    if offset.Hours? {
      DoubleZero();
      OffsetText(sign, Padded(offset.hours, 2), "00", offset.hours, 0);
    } else {
      TwoDigits(offset.minutes);
      OffsetText(sign, Padded(offset.hours, 2), Padded(offset.minutes, 2), offset.hours, offset.minutes);
    }
  }

  lemma OffsetReads(offset: Offset)
    requires offset.Printable()
    ensures ReadOffset(offset.Text()) == Some(offset.Minutes())
  {
    if !offset.Absent? && !offset.Zulu? {
      NumericOffsetReads(offset);
    }
  }

  predicate StopsDigits(text: string) {
    text == "" || (!IsDigit(text[0]) && text[0] != '.')
  }

  lemma OffsetStopsDigits(offset: Offset)
    requires offset.Printable()
    ensures StopsDigits(offset.Text())
  {}

  lemma {:induction false} LeadingDigitsStop(digits: string, rest: string)
    requires AllDigits(digits) && (rest == "" || !IsDigit(rest[0]))
    ensures LeadingDigits(digits + rest) == |digits|
  {
    if digits == "" {
      assert digits + rest == rest;
    } else {
      assert (digits + rest)[1..] == digits[1..] + rest;
      LeadingDigitsStop(digits[1..], rest);
    }
  }

  lemma TailSplits(digits: string, text: string, minutes: int)
    requires AllDigits(digits) && StopsDigits(text) && ReadOffset(text) == Some(minutes)
    ensures ReadTail(FractionText(digits) + text) == Some((Millis(digits), minutes))
  {
    assert Millis("") == 0;
    hide ReadOffset, Millis;
    var rest := FractionText(digits) + text;
    if digits == "" {
      assert rest == text;
    } else {
      assert rest[1..] == digits + text;
      LeadingDigitsStop(digits, text);
      assert rest[1..][..|digits|] == digits && rest[1 + |digits|..] == text;
    }
  }

  lemma TailReads(digits: string, offset: Offset)
    requires AllDigits(digits) && offset.Printable()
    ensures ReadTail(FractionText(digits) + offset.Text()) == Some((Millis(digits), offset.Minutes()))
  {
    hide *;
    OffsetReads(offset);
    OffsetStopsDigits(offset);
    TailSplits(digits, offset.Text(), offset.Minutes());
  }

  lemma ParseSplits(s: string, date: Date, at: Clock, millis: nat, minutes: int)
    requires Separators(s) && ReadFields(s) == Some((date, at)) && |s| >= 19 && ReadTail(s[19..]) == Some((millis, minutes))
    ensures Parse(s) == Some(Instant(date, at, minutes, millis))
  {
    hide ReadFields, ReadTail, Instant;
  }

  /**
   * Every timestamp printed in an accepted shape is read as the instant it
   * names: any separator, any number of fraction digits (the first three count)
   * and any spelling of the offset.
   */
  lemma PrintedReads(date: Date, at: Clock, sep: char, digits: string, offset: Offset)
    requires InRange(date, at) && sep in {'T', 't', ' '} && AllDigits(digits) && offset.Printable()
    ensures Parse(Stamp(date, at, sep) + FractionText(digits) + offset.Text())
            == Some(Instant(date, at, offset.Minutes(), Millis(digits)))
  {
    hide Stamp, Separators, ReadFields, ReadTail, Parse, Instant, Millis, FractionText, Offset.Text, Offset.Minutes, Offset.Printable, AllDigits;
    var rest := FractionText(digits) + offset.Text();
    StampReads(date, at, sep, rest);
    TailReads(digits, offset);
    ParseSplits(Stamp(date, at, sep) + rest, date, at, Millis(digits), offset.Minutes());
    assert Stamp(date, at, sep) + FractionText(digits) + offset.Text() == Stamp(date, at, sep) + rest;
  }

  /** A printed stamp in UTC is read exactly when its fields are in range. */
  lemma ReadExactly(date: Date, at: Clock, sep: char)
    requires 0 <= date.year < 10000 && 0 <= date.month < 100 && 0 <= date.day < 100
    requires 0 <= at.hour < 100 && 0 <= at.minute < 100 && 0 <= at.second < 100 && sep in {'T', 't', ' '}
    ensures Parse(Stamp(date, at, sep) + "Z").Some?
            <==> 1 <= date.month <= 12 && 1 <= date.day <= 31 && at.hour <= 23 && at.minute <= 59 && at.second <= 60
  {
    StampReads(date, at, sep, "Z");
    ZuluTail();
    hide Stamp, Separators, ReadFields, ReadTail, Instant;
  }

  lemma ZuluTail()
    ensures ReadTail("Z") == Some((0, 0))
  {}

  /** Neither a fraction nor an offset: a full stop without a digit, a sign without two digits, anything else but `Z`. */
  predicate NoTail(rest: string) {
    rest != "" &&
    if rest[0] == '.' then |rest| == 1 || !('0' <= rest[1] <= '9')
    else if rest[0] == '+' || rest[0] == '-' then
      |rest| < 3 || (rest[1] != '+' && rest[1] != '-' && !('0' <= rest[1] <= '9')) || !('0' <= rest[2] <= '9')
    else rest[0] != 'Z' && rest[0] != 'z'
  }

  lemma NoTailReads(rest: string)
    requires NoTail(rest)
    ensures ReadTail(rest) == None
  {
    if rest[0] == '.' {
      assert LeadingDigits(rest[1..]) == 0;
    } else if (rest[0] == '+' || rest[0] == '-') && |rest| >= 3 {
      var hh := rest[1..][0..2];
      assert hh[0] == rest[1] && hh[1] == rest[2] && |hh| == 2;
      assert hh[1] in hh && hh[1] in hh[1..] && hh[0] in hh;
      assert ParseInt(hh).None?;
    }
  }

  /** Such an ending is refused, whatever the time. */
  lemma TailRefused(date: Date, at: Clock, sep: char, rest: string)
    requires InRange(date, at) && sep in {'T', 't', ' '} && NoTail(rest)
    ensures Parse(Stamp(date, at, sep) + rest) == None
  {
    StampReads(date, at, sep, rest);
    NoTailReads(rest);
    hide Stamp, Separators, ReadFields, ReadTail, Instant, NoTail;
  }

  lemma {:induction false} YearsAscend(lo: int, hi: int)
    requires lo <= hi
    ensures CivilFromDays(lo).year <= CivilFromDays(hi).year
    decreases hi - lo
  {
    hide CivilFromDays;
    if lo < hi {
      YearsAscend(lo, hi - 1);
      CivilSuccessor(hi - 1);
    }
  }

  lemma SinceEpoch(z: nat)
    ensures CivilFromDays(z).year >= 1970 && Valid(CivilFromDays(z))
  {
    hide CivilFromDays, DaysFromCivil;
    CountsDays(Date(1970, 1, 1));
    CivilInvertsDays(Date(1970, 1, 1));
    YearsAscend(0, z);
    DaysInvertsCivil(z);
  }

  lemma LastFourDigitDay()
    ensures Days(Date(9999, 12, 31)) == 2932896 && Days(Date(10000, 1, 1)) == 2932897
  {}

  /** The first day of year 10000, 2932897 days after the epoch, splits the years. */
  lemma FourDigitYears(z: int)
    ensures CivilFromDays(z).year < 10000 <==> z < 2932897
  {
    LastFourDigitDay();
    hide CivilFromDays, DaysFromCivil;
    CivilInvertsDays(Date(9999, 12, 31));
    CivilInvertsDays(Date(10000, 1, 1));
    if z < 2932897 {
      YearsAscend(z, 2932896);
    } else {
      YearsAscend(2932897, z);
    }
  }

  lemma LongYearRefused(date: Date, at: Clock, rest: string)
    requires date.year >= 10000 && date.month >= 0 && date.day >= 0 && at.hour >= 0 && at.minute >= 0 && at.second >= 0
    ensures Parse(Stamp(date, at, 'T') + rest) == None
  {
    FourDigits(date.year);
    hide Padded;
    var s := Stamp(date, at, 'T') + rest;
    assert s[4] == Padded(date.year, 4)[4];
    assert s[4] in Padded(date.year, 4);
  }

  lemma ClockCounts(rem: nat)
    requires rem < 86400
    ensures var at := ClockOf(rem);
            0 <= at.hour <= 23 && 0 <= at.minute <= 59 && 0 <= at.second <= 59 && 3600 * at.hour + 60 * at.minute + at.second == rem
  {}

  lemma ZuluStamp(date: Date, at: Clock)
    requires InRange(date, at)
    ensures Parse(Stamp(date, at, 'T') + "Z") == Some(Instant(date, at, 0, 0))
  {
    PrintedReads(date, at, 'T', "", Zulu('Z'));
    assert Millis("") == 0;
    hide Stamp, Parse;
    assert Stamp(date, at, 'T') + FractionText("") + Zulu('Z').Text() == Stamp(date, at, 'T') + "Z";
  }

  /** Reading back a printed second gives that second exactly before the year 10000, and nothing from then on. */
  lemma FormatThenParse(secs: nat)
    ensures secs < 253402300800 ==> Parse(FormatEpochUtc(secs)) == Some(1000 * secs)
    ensures secs >= 253402300800 ==> Parse(FormatEpochUtc(secs)) == None
  {
    hide CivilFromDays, DaysFromCivil, Parse, Stamp, ClockOf;
    var z, rem := secs / 86400, secs % 86400;
    var date, at := CivilFromDays(z), ClockOf(rem);
    DaysInvertsCivil(z);
    SinceEpoch(z);
    FourDigitYears(z);
    ClockCounts(rem);
    if secs < 253402300800 {
      ZuluStamp(date, at);
    } else {
      LongYearRefused(date, at, "Z");
    }
  }

  /** Different seconds print differently, so the printer loses nothing before the year 10000. */
  lemma FormatIsInjective(a: nat, b: nat)
    requires a < 253402300800 && b < 253402300800
    ensures FormatEpochUtc(a) == FormatEpochUtc(b) ==> a == b
  {
    FormatThenParse(a);
    FormatThenParse(b);
    hide FormatEpochUtc, Parse;
  }

  /** The first day of year 0 is 719528 days before the epoch. */
  lemma YearsFromZero(z: int)
    ensures CivilFromDays(z).year >= 0 <==> z >= -719528
  {
    assert Days(Date(0, 1, 1)) == -719528 && Days(Date(-1, 12, 31)) == -719529;
    hide CivilFromDays, DaysFromCivil;
    CivilInvertsDays(Date(0, 1, 1));
    CivilInvertsDays(Date(-1, 12, 31));
    if z < -719528 {
      YearsAscend(z, -719529);
    } else {
      YearsAscend(-719528, z);
    }
  }

  /** Up to three digits, valued place by place. */
  lemma ShortValues(t: string)
    requires AllDigits(t) && |t| <= 3
    ensures |t| == 1 ==> DigitsValue(t) == DigitValue(t[0])
    ensures |t| == 2 ==> DigitsValue(t) == 10 * DigitValue(t[0]) + DigitValue(t[1])
    ensures |t| == 3 ==> DigitsValue(t) == 100 * DigitValue(t[0]) + 10 * DigitValue(t[1]) + DigitValue(t[2])
  {
    if |t| > 0 {
      ShortValues(t[..|t| - 1]);
    }
  }

  /** The first three digits after the full stop, missing ones being zeros. */
  function Thousandths(digits: string): (n: nat)
    requires AllDigits(digits)
    ensures AllDigits((digits + "000")[..3]) && n == DigitsValue((digits + "000")[..3])
  {
    assert forall c :: c in (digits + "000")[..3] ==> c in digits || c == '0';
    DigitsValue((digits + "000")[..3])
  }

  lemma FirstThree(digits: string)
    requires AllDigits(digits)
    ensures Millis(digits) == Thousandths(digits)
  {
    var t := (digits + "000")[..3];
    assert forall i :: 0 <= i < 3 ==> t[i] == if i < |digits| then digits[i] else '0';
    ShortValues(t);
    if |digits| <= 3 {
      ShortValues(digits);
    }
    assert |digits| >= 3 ==> digits[..3] == t;
  }

  lemma LocalInstant(secs: int, minutes: int, millis: nat)
    requires -719528 * 86400 <= secs + 60 * minutes < 2932897 * 86400
    ensures var local := secs + 60 * minutes;
            var date, at := CivilFromDays(local / 86400), ClockOf(local % 86400);
            InRange(date, at) && Instant(date, at, minutes, millis) == 1000 * secs + millis
  {
    hide CivilFromDays, DaysFromCivil, ClockOf;
    var z, rem := (secs + 60 * minutes) / 86400, (secs + 60 * minutes) % 86400;
    DaysInvertsCivil(z);
    YearsFromZero(z);
    FourDigitYears(z);
    ClockCounts(rem);
  }

  /**
   * A clock that is ahead of UTC shows a later time: whatever zone a moment is
   * written in, the local date and time with the zone's offset, at any separator
   * and with any fraction, read back as that moment. Holds of all moments whose
   * local year has at most four digits.
   */
  lemma LocalTimeReads(secs: int, sep: char, digits: string, offset: Offset, local: int)
    requires local == secs + 60 * offset.Minutes() && -719528 * 86400 <= local < 2932897 * 86400
    requires sep in {'T', 't', ' '} && AllDigits(digits) && offset.Printable()
    ensures InRange(CivilFromDays(local / 86400), ClockOf(local % 86400))
    ensures Parse(Stamp(CivilFromDays(local / 86400), ClockOf(local % 86400), sep) + FractionText(digits) + offset.Text())
            == Some(1000 * secs + Thousandths(digits))
  {
    hide Parse, Stamp, FractionText, Offset.Text, Offset.Minutes, Offset.Printable, Millis, Thousandths, AllDigits, Instant, CivilFromDays, ClockOf;
    var date, at := CivilFromDays(local / 86400), ClockOf(local % 86400);
    LocalInstant(secs, offset.Minutes(), Millis(digits));
    FirstThree(digits);
    PrintedReads(date, at, sep, digits, offset);
  }

  lemma ColonOffset(minus: bool, hours: nat, minutes: nat)
    requires hours < 100 && minutes < 100
    ensures var offset := Colon(minus, hours, minutes);
            && offset.Printable() && offset.Text() == [if minus then '-' else '+'] + Padded(hours, 2) + ":" + Padded(minutes, 2)
            && 60 * offset.Minutes() == if minus then -(3600 * hours + 60 * minutes) else 3600 * hours + 60 * minutes
  {
    hide Padded;
  }

  lemma NoFraction(stamp: string)
    ensures AllDigits("") && Thousandths("") == 0 && stamp + FractionText("") == stamp
  {
    assert ("" + "000")[..3] == "000";
    ShortValues("000");
  }

  /** A whole second shown at an offset written with a colon. */
  lemma ShownAt(secs: int, minus: bool, hours: nat, minutes: nat, local: int)
    requires hours < 100 && minutes < 100 && local == (if minus then secs - 3600 * hours - 60 * minutes else secs + 3600 * hours + 60 * minutes)
    requires -719528 * 86400 <= local < 2932897 * 86400
    ensures InRange(CivilFromDays(local / 86400), ClockOf(local % 86400))
    ensures Parse(Stamp(CivilFromDays(local / 86400), ClockOf(local % 86400), 'T') + ([if minus then '-' else '+'] + Padded(hours, 2) + ":" + Padded(minutes, 2)))
            == Some(1000 * secs)
  {
    hide Parse, Stamp, FractionText, Offset.Text, Offset.Minutes, Offset.Printable, Thousandths, AllDigits, Padded, CivilFromDays, ClockOf;
    var offset := Colon(minus, hours, minutes);
    ColonOffset(minus, hours, minutes);
    NoFraction("");
    LocalTimeReads(secs, 'T', "", offset, local);
    NoFraction(Stamp(CivilFromDays(local / 86400), ClockOf(local % 86400), 'T'));
  }

  /** East of Greenwich is ahead: `+HH:MM` follows a local time that is so much later, `-HH:MM` one that is earlier. */
  lemma EastIsAhead(secs: int, hours: nat, minutes: nat)
    requires hours < 100 && minutes < 100
    ensures var local := secs + 3600 * hours + 60 * minutes;
            -719528 * 86400 <= local < 2932897 * 86400 ==>
              && InRange(CivilFromDays(local / 86400), ClockOf(local % 86400))
              && Parse(Stamp(CivilFromDays(local / 86400), ClockOf(local % 86400), 'T') + ("+" + Padded(hours, 2) + ":" + Padded(minutes, 2)))
                 == Some(1000 * secs)
    ensures var local := secs - 3600 * hours - 60 * minutes;
            -719528 * 86400 <= local < 2932897 * 86400 ==>
              && InRange(CivilFromDays(local / 86400), ClockOf(local % 86400))
              && Parse(Stamp(CivilFromDays(local / 86400), ClockOf(local % 86400), 'T') + ("-" + Padded(hours, 2) + ":" + Padded(minutes, 2)))
                 == Some(1000 * secs)
  {
    hide Parse, Stamp, Padded, CivilFromDays, ClockOf, InRange;
    var ahead, behind := secs + 3600 * hours + 60 * minutes, secs - 3600 * hours - 60 * minutes;
    if -719528 * 86400 <= ahead < 2932897 * 86400 {
      ShownAt(secs, false, hours, minutes, ahead);
    }
    if -719528 * 86400 <= behind < 2932897 * 86400 {
      ShownAt(secs, true, hours, minutes, behind);
    }
  }

  lemma Feb31IsMar3(year: int)
    requires !Leap(year)
    ensures Days(Date(year, 2, 31)) == Days(Date(year, 3, 3))
  {
    DaysClosedForm(year, 2, 31);
    DaysClosedForm(year, 2, 28);
    CountsDays(Date(year, 2, 28));
    CountsDays(Date(year, 3, 1));
    CountsDays(Date(year, 3, 2));
    hide DaysFromCivil;
  }

  /** Reading is not injective: outside leap years the 31st of February reads as the third of March, and a leap second as the next hour. */
  lemma OverflowingFieldsRunOver(year: int, at: Clock)
    requires InRange(Date(year, 2, 28), at) && !Leap(year)
    ensures var feb31 := Stamp(Date(year, 2, 31), at, 'T') + "Z";
            var mar3 := Stamp(Date(year, 3, 3), at, 'T') + "Z";
            feb31 != mar3 && Parse(feb31) == Parse(mar3) && Parse(mar3).Some?
    ensures Parse(Stamp(Date(year, 2, 28), Clock(at.hour, 59, 60), 'T') + "Z")
            == Some(Instant(Date(year, 2, 28), Clock(at.hour + 1, 0, 0), 0, 0))
  {
    hide DaysFromCivil, Parse, Stamp, Leap;
    ZuluStamp(Date(year, 2, 31), at);
    ZuluStamp(Date(year, 3, 3), at);
    ZuluStamp(Date(year, 2, 28), Clock(at.hour, 59, 60));
    StampReads(Date(year, 2, 31), at, 'T', "Z");
    StampReads(Date(year, 3, 3), at, 'T', "Z");
    Feb31IsMar3(year);
  }
}
