/** The "Current Time" caption that both dashboards refresh on every graph
    tick (`update_time_display`): the wall clock broken into hours, minutes,
    seconds and milliseconds of the UTC day and printed as
    `Current Time: <h>時<m>分<s>秒.<mmm>`.

    The clock reading is taken as a parameter, in whole milliseconds since
    the epoch. */
module Clock {

  datatype TimeOfDay = TimeOfDay(hours: nat, minutes: nat, seconds: nat, millis: nat)

  /** Python's `int(current_time)`: whole seconds, truncated toward zero. */
  function WholeSeconds(tMs: int): (w: int)
    ensures 0 <= tMs ==> 0 <= tMs - 1000 * w < 1000
    ensures tMs < 0 ==> -1000 < tMs - 1000 * w <= 0
  {
    if tMs >= 0 then tMs / 1000 else -((-tMs) / 1000)
  }

  /** The h/m/s fields come from the truncated whole seconds with Python's
      flooring `//` and `%` (Dafny's `/` and `%` agree with them for a
      positive divisor); the milliseconds come from `current_time % 1`,
      which floors. */
  function Breakdown(tMs: int): (tod: TimeOfDay)
    ensures tod.hours < 24 && tod.minutes < 60 && tod.seconds < 60 && tod.millis < 1000
  {
    var w := WholeSeconds(tMs);
    TimeOfDay((w / 3600) % 24, (w / 60) % 60, w % 60, tMs % 1000)
  }

  lemma MinutesOfDay(w: int)
    ensures (w / 60) % 60 == ((w % 86400) / 60) % 60
  {
    var q, d := w / 86400, w % 86400;
    var e, f := d / 60, d % 60;
    assert w == 60 * (1440 * q + e) + f;
    assert w / 60 == 1440 * q + e;
    var g, h := e / 60, e % 60;
    assert 1440 * q + e == 60 * (24 * q + g) + h;
  }

  lemma HoursOfDay(w: int)
    ensures (w / 3600) % 24 == (w % 86400) / 3600
  {
    var q, d := w / 86400, w % 86400;
    var e, f := d / 3600, d % 3600;
    assert w == 3600 * (24 * q + e) + f;
    assert w / 3600 == 24 * q + e;
    assert 0 <= e < 24;
  }

  lemma SecondsOfMinute(w: int)
    ensures w % 60 == (w % 86400) % 60
  {
    var q, d := w / 86400, w % 86400;
    var e, f := d / 60, d % 60;
    assert w == 60 * (1440 * q + e) + f;
  }

  lemma SecondsOfDaySplit(d: int)
    requires 0 <= d < 86400
    ensures (d / 3600) * 3600 + ((d / 60) % 60) * 60 + d % 60 == d
  {
    var m, s := d / 60, d % 60;
    var h, mm := m / 60, m % 60;
    assert d == 3600 * h + 60 * mm + s;
    assert d / 3600 == h;
  }

  lemma SecondsOfDay(w: int)
    ensures ((w / 3600) % 24) * 3600 + ((w / 60) % 60) * 60 + w % 60 == w % 86400
  {
    MinutesOfDay(w);
    HoursOfDay(w);
    SecondsOfMinute(w);
    SecondsOfDaySplit(w % 86400);
  }

  lemma MillisOfDay(tMs: int)
    requires tMs >= 0
    ensures tMs % 86400000 == 1000 * ((tMs / 1000) % 86400) + tMs % 1000
  {
    var w, r := tMs / 1000, tMs % 1000;
    var q, d := w / 86400, w % 86400;
    assert tMs == 86400000 * q + (1000 * d + r);
    assert 0 <= 1000 * d + r < 86400000;
  }

  /** Hours, minutes and seconds recombine into the whole seconds of the day. */
  lemma BreakdownRecombines(tMs: int)
    ensures var tod := Breakdown(tMs);
            tod.hours * 3600 + tod.minutes * 60 + tod.seconds == WholeSeconds(tMs) % 86400
  {
    SecondsOfDay(WholeSeconds(tMs));
  }

  /** For any clock reading at or after the epoch the caption is exactly the
      time of day, to the millisecond. */
  lemma BreakdownIsTimeOfDay(tMs: int)
    requires tMs >= 0
    ensures var tod := Breakdown(tMs);
            tod.hours * 3600000 + tod.minutes * 60000 + tod.seconds * 1000 + tod.millis
              == tMs % 86400000
  {
    BreakdownRecombines(tMs);
    MillisOfDay(tMs);
  }

  /** Before the epoch the two roundings disagree: 1.5 s before it, the
      truncated seconds give 23:59:59 while the floored fraction gives .500,
      half a second later than the actual 23:59:58.500. */
  lemma PreEpochRounding()
    ensures Breakdown(-1500) == TimeOfDay(23, 59, 59, 500)
    ensures -1500 % 86400000 == 23 * 3600000 + 59 * 60000 + 58 * 1000 + 500
  {
  }

  // ---- decimal rendering ----

  predicate IsDigits(s: string)
  {
    forall i :: 0 <= i < |s| ==> '0' <= s[i] <= '9'
  }

  function DigitChar(d: nat): (c: char)
    requires d < 10
    ensures '0' <= c <= '9' && c as int - '0' as int == d
  {
    ('0' as int + d) as char
  }

  /** The number a string of decimal digits denotes. */
  function DigitsValue(s: string): nat
    requires IsDigits(s)
  {
    if s == [] then 0 else 10 * DigitsValue(s[..|s| - 1]) + (s[|s| - 1] as int - '0' as int)
  }

  /** `f"{n}"` for a non-negative integer: its shortest decimal form. */
  function Decimal(n: nat): (s: string)
    ensures 1 <= |s| && IsDigits(s)
    ensures s[0] == '0' ==> n == 0 && s == "0"
  {
    if n < 10 then [DigitChar(n)] else Decimal(n / 10) + [DigitChar(n % 10)]
  }

  lemma {:induction false} DecimalRoundTrip(n: nat)
    ensures DigitsValue(Decimal(n)) == n
  {
    if n >= 10 {
      var s := Decimal(n);
      assert s[..|s| - 1] == Decimal(n / 10);
      DecimalRoundTrip(n / 10);
    }
  }

  /** `f"{n:03d}"` for a millisecond count: three digits, zero-padded. */
  function Pad3(n: nat): (s: string)
    requires n < 1000
    ensures |s| == 3 && IsDigits(s)
  {
    [DigitChar(n / 100), DigitChar((n / 10) % 10), DigitChar(n % 10)]
  }

  lemma Pad3RoundTrip(n: nat)
    requires n < 1000
    ensures DigitsValue(Pad3(n)) == n
  {
    var s := Pad3(n);
    assert s[..2][..1] == [s[0]];
    assert DigitsValue([s[0]]) == n / 100;
  }

  // ---- the caption ----

  const Prefix: string := "Current Time: "

  /** The caption after its prefix, `<h>時<m>分<s>秒.<mmm>`, written with
      every concatenation grouped to the right. */
  function Fields(tod: TimeOfDay): (text: string)
    requires tod.millis < 1000
    ensures |text| >= 4 && text[|text| - 4] == '.' && text[|text| - 3..] == Pad3(tod.millis)
    ensures var h := Decimal(tod.hours); |text| > |h| && text[..|h| + 1] == h + ['時']
  {
    Decimal(tod.hours) + ['時'] + (Decimal(tod.minutes) + ['分']
      + (Decimal(tod.seconds) + ['秒'] + ("." + Pad3(tod.millis))))
  }

  function Display(tMs: int): (text: string)
    ensures |text| >= |Prefix| + 4 && text[..|Prefix|] == Prefix
    ensures text[|text| - 4] == '.' && text[|text| - 3..] == Pad3(Breakdown(tMs).millis)
  {
    Prefix + Fields(Breakdown(tMs))
  }

  /** The caption's last three characters read back as the milliseconds. */
  lemma DisplayMillis(tMs: int)
    ensures var text := Display(tMs);
            IsDigits(text[|text| - 3..]) && DigitsValue(text[|text| - 3..]) == Breakdown(tMs).millis
  {
    Pad3RoundTrip(Breakdown(tMs).millis);
  }

  /** How many decimal digits a string starts with. */
  function LeadingDigits(s: string): (n: nat)
    ensures n <= |s| && IsDigits(s[..n])
  {
    if s == [] || !('0' <= s[0] <= '9') then 0 else 1 + LeadingDigits(s[1..])
  }

  lemma {:induction false} LeadingDigitsBeforeSeparator(a: string, c: char, r: string)
    requires IsDigits(a) && !('0' <= c <= '9')
    ensures LeadingDigits(a + [c] + r) == |a|
  {
    if a != [] {
      assert (a + [c] + r)[1..] == a[1..] + [c] + r;
      LeadingDigitsBeforeSeparator(a[1..], c, r);
    }
  }

  /** Splitting at the first occurrence of a non-digit separator after a
      run of digits is unambiguous. */
  lemma SplitAtSeparator(a1: string, r1: string, a2: string, r2: string, c: char)
    requires IsDigits(a1) && IsDigits(a2) && !('0' <= c <= '9')
    requires a1 + [c] + r1 == a2 + [c] + r2
    ensures a1 == a2 && r1 == r2
  {
    var s := a1 + [c] + r1;
    LeadingDigitsBeforeSeparator(a1, c, r1);
    LeadingDigitsBeforeSeparator(a2, c, r2);
    assert a1 == s[..|a1|] == a2;
    assert r1 == s[|a1| + 1..] == r2;
  }

  lemma DecimalInjective(m: nat, n: nat)
    requires Decimal(m) == Decimal(n)
    ensures m == n
  {
    DecimalRoundTrip(m);
    DecimalRoundTrip(n);
  }

  lemma Pad3Injective(m: nat, n: nat)
    requires m < 1000 && n < 1000 && Pad3(m) == Pad3(n)
    ensures m == n
  {
    Pad3RoundTrip(m);
    Pad3RoundTrip(n);
  }

  lemma FieldsInjective(a: TimeOfDay, b: TimeOfDay)
    requires a.millis < 1000 && b.millis < 1000
    requires Fields(a) == Fields(b)
    ensures a == b
  {
    var ms1, ms2 := "." + Pad3(a.millis), "." + Pad3(b.millis);
    var q1, q2 := Decimal(a.seconds) + ['秒'] + ms1, Decimal(b.seconds) + ['秒'] + ms2;
    var r1, r2 := Decimal(a.minutes) + ['分'] + q1, Decimal(b.minutes) + ['分'] + q2;
    SplitAtSeparator(Decimal(a.hours), r1, Decimal(b.hours), r2, '時');
    SplitAtSeparator(Decimal(a.minutes), q1, Decimal(b.minutes), q2, '分');
    SplitAtSeparator(Decimal(a.seconds), ms1, Decimal(b.seconds), ms2, '秒');
    assert Pad3(a.millis) == ms1[1..] == ms2[1..] == Pad3(b.millis);
    DecimalInjective(a.hours, b.hours);
    DecimalInjective(a.minutes, b.minutes);
    DecimalInjective(a.seconds, b.seconds);
    Pad3Injective(a.millis, b.millis);
  }

  /** The caption is unambiguous: two clock readings with the same caption
      have the same hours, minutes, seconds and milliseconds. */
  lemma DisplayDeterminesTimeOfDay(t1: int, t2: int)
    requires Display(t1) == Display(t2)
    ensures Breakdown(t1) == Breakdown(t2)
  {
    var p := |Prefix|;
    assert Fields(Breakdown(t1)) == Display(t1)[p..] == Display(t2)[p..] == Fields(Breakdown(t2));
    FieldsInjective(Breakdown(t1), Breakdown(t2));
  }
}
