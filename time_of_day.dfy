/** Local wall-clock arithmetic used by the reminder code. An instant is a
    number of milliseconds since local midnight of 1970-01-01 (a Thursday);
    there is no daylight-saving shift. `HH:MM` strings are parsed the way
    `timeString.split(':').map(Number)` does for digit strings, and formatted
    the way `n.toString().padStart(2, '0')` does. */
module TimeOfDay {
  import opened FamilyTypes
  import Strings

  const MsPerMinute: nat := 60_000
  const MsPerHour: nat := 3_600_000
  const MsPerDay: nat := 86_400_000

  /** Midnight of the day containing `t`. */
  function DayStart(t: nat): nat
  {
    (t / MsPerDay) * MsPerDay
  }

  /** `Date.prototype.getHours` */
  function HoursOf(t: nat): nat
  {
    (t % MsPerDay) / MsPerHour
  }

  /** `Date.prototype.getMinutes` */
  function MinutesOf(t: nat): nat
  {
    (t % MsPerHour) / MsPerMinute
  }

  /** `Date.prototype.getDay`: 0 is Sunday. Day 0 of the epoch is a Thursday. */
  function DayOfWeek(t: nat): (r: nat)
    ensures r < 7
  {
    (t / MsPerDay + 4) % 7
  }

  /** Division is determined by any quotient/remainder pair. */
  lemma DivModUnique(a: int, q: int, r: int, d: int)
    requires d > 0 && 0 <= r < d && a == q * d + r
    ensures a / d == q && a % d == r
  {
    var q', r' := a / d, a % d;
    assert a == q' * d + r';
    assert q * d - q' * d == (q - q') * d;
    MulAtLeast(q - q', d);
    MulAtLeast(q' - q, d);
  }

  lemma {:induction false} MulAtLeast(x: int, d: int)
    requires d > 0
    ensures x >= 1 ==> x * d >= d
    decreases if x < 0 then 0 else x
  {
    if x > 1 {
      MulAtLeast(x - 1, d);
      assert x * d == (x - 1) * d + d;
    }
  }

  // ---------------------------------------------------------------------------
  // Parsing `HH:MM`

  predicate IsDigit(c: char)
  {
    '0' <= c <= '9'
  }

  function DigitValue(c: char): nat
    requires IsDigit(c)
  {
    (c as int) - ('0' as int)
  }

  function DigitChar(n: nat): (c: char)
    requires n < 10
    ensures IsDigit(c) && DigitValue(c) == n
  {
    ('0' as int + n) as char
  }

  predicate AllDigits(s: string)
  {
    forall i | 0 <= i < |s| :: IsDigit(s[i])
  }

  /** Decimal value of a digit string; the empty string reads as 0. */
  function DigitsValue(s: string): nat
    requires AllDigits(s)
  {
    if s == [] then 0 else DigitsValue(s[..|s| - 1]) * 10 + DigitValue(s[|s| - 1])
  }

  /** `Number(piece)` for the pieces of a time string: a digit string (the
      empty one included) reads as its value; anything else is `NaN`. */
  function ToNumber(s: string): Option<nat>
  {
    if AllDigits(s) then Some(DigitsValue(s)) else None
  }

  datatype Clock = Clock(hours: nat, minutes: nat)

  /** `const [hours, minutes] = timeString.split(':').map(Number)`; `None`
      when either part is `NaN` or missing. */
  function ParseTime(s: string): Option<Clock>
  {
    var parts := Strings.Split(s, ':');
    if |parts| < 2 then None
    else
      match (ToNumber(parts[0]), ToNumber(parts[1]))
      case (Some(h), Some(m)) => Some(Clock(h, m))
      case _ => None
  }

  // ---------------------------------------------------------------------------
  // Formatting `HH:MM`

  /** `n.toString()` */
  function DecimalString(n: nat): (r: string)
    ensures |r| >= 1 && AllDigits(r)
    ensures n < 10 ==> |r| == 1
    ensures 10 <= n < 100 ==> |r| == 2
  {
    if n < 10 then [DigitChar(n)] else DecimalString(n / 10) + [DigitChar(n % 10)]
  }

  /** `s.padStart(2, '0')` */
  function PadTwo(s: string): string
  {
    if |s| >= 2 then s else seq(2 - |s|, _ => '0') + s
  }

  /** `${HH}:${MM}` of the given hour and minute. */
  function FormatClock(h: nat, m: nat): string
  {
    PadTwo(DecimalString(h)) + ":" + PadTwo(DecimalString(m))
  }

  lemma {:induction false} DecimalStringValue(n: nat)
    ensures DigitsValue(DecimalString(n)) == n
  {
    if n >= 10 {
      var s := DecimalString(n);
      assert s[..|s| - 1] == DecimalString(n / 10);
      DecimalStringValue(n / 10);
    } else {
      var s := DecimalString(n);
      assert s[..|s| - 1] == [];
    }
  }

  /** A leading zero does not change a digit string's value. */
  lemma {:induction false} LeadingZeroValue(s: string)
    requires AllDigits(s)
    ensures AllDigits("0" + s) && DigitsValue("0" + s) == DigitsValue(s)
    decreases |s|
  {
    if s != [] {
      var z := "0" + s;
      assert z[..|z| - 1] == "0" + s[..|s| - 1];
      LeadingZeroValue(s[..|s| - 1]);
    } else {
      assert ("0" + s)[..0] == [];
    }
  }

  /** A two-digit field reads back as the number it was formatted from. */
  lemma PadTwoValue(n: nat)
    requires n < 100
    ensures |PadTwo(DecimalString(n))| == 2
    ensures ToNumber(PadTwo(DecimalString(n))) == Some(n)
  {
    DecimalStringValue(n);
    var s := DecimalString(n);
    if |s| < 2 {
      assert PadTwo(s) == "0" + s;
      LeadingZeroValue(s);
    }
  }

  /** Formatting then parsing returns the original hour and minute, and the
      formatted string is always five characters `HH:MM`. */
  lemma FormatParseRoundTrip(h: nat, m: nat)
    requires h < 24 && m < 60
    ensures |FormatClock(h, m)| == 5 && FormatClock(h, m)[2] == ':'
    ensures ParseTime(FormatClock(h, m)) == Some(Clock(h, m))
  {
    PadTwoValue(h);
    PadTwoValue(m);
    var a, b := PadTwo(DecimalString(h)), PadTwo(DecimalString(m));
    assert ':' !in a by { assert AllDigits(a); }
    assert ':' !in b by { assert AllDigits(b); }
    assert FormatClock(h, m) == a + [':'] + b;
    Strings.SplitJoin(a, b, ':');
  }

  // ---------------------------------------------------------------------------
  // Next occurrence of a time of day

  /** `scheduledTime.setHours(h, m, 0, 0)` on a copy of `now`: midnight of
      `now`'s day plus the given hours and minutes (values past 23:59 roll
      over into later days, as `setHours` does). */
  function TodayAt(now: nat, c: Clock): nat
  {
    DayStart(now) + c.hours * MsPerHour + c.minutes * MsPerMinute
  }

  /** The instant a clock time next occurs: today's if it is still ahead of
      `now`, tomorrow's otherwise. */
  function NextOccurrence(now: nat, c: Clock): nat
  {
    var t := TodayAt(now, c);
    if t <= now then t + MsPerDay else t
  }

  predicate ValidClock(c: Clock)
  {
    c.hours < 24 && c.minutes < 60
  }

  /** For a valid clock time the next occurrence is strictly after `now`, at
      most one day later, falls exactly on that hour and minute with zero
      seconds and milliseconds, and is on `now`'s day exactly when today's
      occurrence is still ahead. */
  lemma NextOccurrenceProperties(now: nat, c: Clock)
    requires ValidClock(c)
    ensures now < NextOccurrence(now, c) <= now + MsPerDay
    ensures NextOccurrence(now, c) % MsPerMinute == 0
    ensures HoursOf(NextOccurrence(now, c)) == c.hours
    ensures MinutesOf(NextOccurrence(now, c)) == c.minutes
    ensures NextOccurrence(now, c) / MsPerDay == now / MsPerDay <==> TodayAt(now, c) > now
    ensures NextOccurrence(now, c) / MsPerDay == now / MsPerDay + 1 <==> TodayAt(now, c) <= now
  {
    var d := now / MsPerDay;
    var off := c.hours * MsPerHour + c.minutes * MsPerMinute;
    assert off < MsPerDay;
    DivModUnique(now, d, now % MsPerDay, MsPerDay);
    var r := NextOccurrence(now, c);
    var k := if TodayAt(now, c) <= now then d + 1 else d;
    assert r == k * MsPerDay + off;
    DivModUnique(r, k, off, MsPerDay);
    DivModUnique(off, c.hours, c.minutes * MsPerMinute, MsPerHour);
    DivModUnique(r, k * 24 + c.hours, c.minutes * MsPerMinute, MsPerHour);
    DivModUnique(c.minutes * MsPerMinute, c.minutes, 0, MsPerMinute);
    DivModUnique(r, k * 1440 + c.hours * 60 + c.minutes, 0, MsPerMinute);
  }

  /** At the instant a time of day occurs, its next occurrence is exactly
      one day later: a timer that reschedules itself when it fires keeps a
      daily rhythm. */
  lemma NextOccurrenceAtItself(now: nat, c: Clock)
    requires ValidClock(c)
    ensures TodayAt(NextOccurrence(now, c), c) == NextOccurrence(now, c)
    ensures NextOccurrence(NextOccurrence(now, c), c) == NextOccurrence(now, c) + MsPerDay
  {
    var d := now / MsPerDay;
    var off := c.hours * MsPerHour + c.minutes * MsPerMinute;
    var t := NextOccurrence(now, c);
    var k := if TodayAt(now, c) <= now then d + 1 else d;
    assert t == k * MsPerDay + off;
    DivModUnique(t, k, off, MsPerDay);
    assert TodayAt(t, c) == t;
  }
}
